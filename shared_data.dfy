/** The single value that readers and writers share.  Each method is one
    synchronized section, so each is taken as one atomic step. */
module ReaderWriter {

  /** Java's `int`: the value is only stored and returned, never computed on. */
  newtype Int32 = x: int | -0x8000_0000 <= x < 0x8000_0000

  class SharedData {
    var sharedValue: Int32

    /** The field starts at 0. */
    constructor ()
      ensures sharedValue == 0
    {
      sharedValue := 0;
    }

    /** `write`: the stored value becomes the new one. */
    method Write(newValue: Int32)
      modifies this
      ensures sharedValue == newValue
    {
      sharedValue := newValue;
    }

    /** `read`: returns the stored value and changes nothing. */
    method Read() returns (r: Int32)
      ensures r == sharedValue
    {
      r := sharedValue;
    }
  }

  /** A fresh instance reads 0, and reading twice gives the same value. */
  method ReadFresh() returns (r1: Int32, r2: Int32)
    ensures r1 == 0 && r2 == 0
  {
    var d := new SharedData();
    r1 := d.Read();
    r2 := d.Read();
  }

  /** A write followed by a read returns the value written. */
  method WriteThenRead(d: SharedData, v: Int32) returns (r: Int32)
    modifies d
    ensures r == v && d.sharedValue == v
  {
    d.Write(v);
    r := d.Read();
  }

  /** Last write wins. */
  method WriteWriteRead(d: SharedData, a: Int32, b: Int32) returns (r: Int32)
    modifies d
    ensures r == b && d.sharedValue == b
  {
    d.Write(a);
    d.Write(b);
    r := d.Read();
  }

  /** Writing the same value twice leaves the state writing it once leaves. */
  method WriteTwice(d: SharedData, v: Int32)
    modifies d
    ensures d.sharedValue == v
  {
    d.Write(v);
    d.Write(v);
  }
}
