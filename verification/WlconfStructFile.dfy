/** struct.bin written to and read from a file, field by field. */
module WlconfStructFile {
  import opened Words
  import opened LittleEndian
  import opened WlconfLayout
  import opened WlconfStructBin

  /** A file open for writing. */
  class Output {
    var data: seq<byte>

    constructor ()
      ensures data == []
    {
      data := [];
    }

    method WriteInt(v: int)
      modifies this
      ensures data == old(data) + PutInt(v)
    {
      data := data + Digits(v % U32, 4);
    }

    method WriteName(n: Name)
      modifies this
      ensures data == old(data) + PutName(n)
    {
      WriteInt(|n|);
      data := data + n;
    }

    /** write_element. */
    method WriteElement(e: Element)
      modifies this
      ensures data == old(data) + PutElement(e)
    {
      hide PutInt, PutName;
      WriteName(e.name);
      WriteInt(e.typ);
      WriteInt(e.arraySize);
      WriteInt(e.position);
    }

    /** write_struct. */
    method WriteStruct(s: Structure)
      modifies this
      ensures data == old(data) + PutStruct(s)
    {
      hide PutInt, PutName, PutElement;
      WriteName(s.name);
      WriteInt(|s.elements|);
      WriteInt(s.size);
      ghost var head := data;
      assert s.elements[0..] == s.elements;
      for i := 0 to |s.elements|
        invariant data + PutElements(s.elements[i..]) == head + PutElements(s.elements)
      {
        assert s.elements[i..][1..] == s.elements[i + 1..];
        WriteElement(s.elements[i]);
      }
      assert data == head + PutElements(s.elements);
    }

    /** generate_struct. */
    method GenerateStruct(m: Meta)
      modifies this
      ensures data == old(data) + PutMeta(m)
    {
      hide PutInt, PutStruct;
      WriteInt(m.magic);
      WriteInt(m.version);
      WriteInt(m.checksum);
      WriteInt(|m.structures|);
      ghost var head := data;
      assert m.structures[0..] == m.structures;
      for i := 0 to |m.structures|
        invariant data + PutStructs(m.structures[i..]) == head + PutStructs(m.structures)
      {
        assert m.structures[i..][1..] == m.structures[i + 1..];
        WriteStruct(m.structures[i]);
      }
      assert data == head + PutStructs(m.structures);
    }
  }

  /** A file open for reading; what is left of it. */
  class Input {
    var left: seq<byte>

    constructor (data: seq<byte>)
      ensures left == data
    {
      left := data;
    }

    method ReadInt() returns (v: int)
      requires GetInt(left).Got?
      modifies this
      ensures GetInt(old(left)) == Got(v, left)
    {
      v := Signed(Number(left[..4]));
      left := left[4..];
    }

    method ReadName() returns (n: Name)
      requires GetName(left).Got?
      modifies this
      ensures GetName(old(left)) == Got(n, left)
    {
      hide GetInt;
      var len := ReadInt();
      n := CString(left[..len]);
      left := left[len..];
    }

    /** read_element. */
    method ReadElement() returns (e: Element)
      requires GetElement(left).Got?
      modifies this
      ensures GetElement(old(left)) == Got(e, left)
    {
      hide GetInt, GetName, Unsigned;
      var name := ReadName();
      var typ := ReadInt();
      var arraySize := ReadInt();
      var position := ReadInt();
      e := Element(name, typ, arraySize, Unsigned(position));
    }

    /** read_struct. */
    method ReadStruct() returns (s: Structure)
      requires GetStruct(left).Got?
      modifies this
      ensures GetStruct(old(left)) == Got(s, left)
    {
      hide GetInt, GetName, GetElement, Unsigned;
      var name := ReadName();
      var n := ReadInt();
      var size := ReadInt();
      ghost var from := left;
      var es: seq<Element> := [];
      assert es + GetElements(n, left).value == GetElements(n, left).value;
      for i := 0 to n
        invariant GetElements(n - i, left).Got?
        invariant GetElements(n, from) == Got(es + GetElements(n - i, left).value, GetElements(n - i, left).rest)
      {
        ghost var tail := GetElements(n - i, left).value;
        var e := ReadElement();
        assert es + tail == es + [e] + GetElements(n - i - 1, left).value;
        es := es + [e];
      }
      s := Structure(name, es, Unsigned(size));
      assert es + [] == es;
      assert GetElements(n, from) == Got(es, left);
    }

    /** read_binary_struct. */
    method ReadBinaryStruct() returns (m: Meta)
      requires GetMeta(left).Got?
      modifies this
      ensures GetMeta(old(left)) == Got(m, left)
    {
      hide GetInt, GetStruct;
      var magic := ReadInt();
      var version := ReadInt();
      var checksum := ReadInt();
      var n := ReadInt();
      ghost var from := left;
      var db: Table := [];
      assert db + GetStructs(n, left).value == GetStructs(n, left).value;
      for i := 0 to n
        invariant GetStructs(n - i, left).Got?
        invariant GetStructs(n, from) == Got(db + GetStructs(n - i, left).value, GetStructs(n - i, left).rest)
      {
        ghost var tail := GetStructs(n - i, left).value;
        var s := ReadStruct();
        assert db + tail == db + [s] + GetStructs(n - i - 1, left).value;
        db := db + [s];
      }
      m := Meta(magic, version, checksum, db);
      assert db + [] == db;
      assert GetStructs(n, from) == Got(db, left);
    }
  }

  /** Generating struct.bin and reading it in a later run of the tool. */
  method StoreAndFetch(m: Meta) returns (back: Meta)
    requires MetaFits(m)
    ensures back == m
  {
    hide MetaFits, GetMeta, PutMeta;
    var out := new Output();
    out.GenerateStruct(m);
    RoundTrip(m, []);
    assert [] + PutMeta(m) == PutMeta(m) + [];
    var file := new Input(out.data);
    back := file.ReadBinaryStruct();
  }
}
