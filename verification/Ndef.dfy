/** NDEF Type 4 tags: the data model and its blob (ndef.c) and the listener (ndef_listener.c).

    max is the configured maximum message size; every statement holds for all its values. */
module Ndef {
  import opened Bytes
  import opened Apdu

  const CcLen := 15

  /** ndef_data_t. */
  datatype Data = Data(cc: seq<byte>, file: seq<byte>, ccLen: nat, fileLen: nat)

  predicate Shaped(d: Data, max: nat) {
    1 <= max <= 4096 && |d.cc| == CcLen && |d.file| == 2 + max && d.ccLen < 65536 && d.fileLen < 65536
  }

  function ResetData(max: nat): Data { Data(Zeroes(CcLen), Zeroes(2 + max), 0, 0) }

  function Nlen(file: seq<byte>): (n: nat)
    requires |file| >= 2
    ensures n < 65536
  { Be16(file[0], file[1]) }

  // ---------- the blob ----------

  /** ndef_serialize into a buffer of outMax bytes. */
  function Serialize(d: Data, max: nat, outMax: nat): Option<seq<byte>>
    requires Shaped(d, max)
  {
    if d.ccLen != CcLen || d.fileLen > 2 + max || outMax < 1 + CcLen + d.fileLen then None
    else Some([0x01] + d.cc + d.file[..d.fileLen])
  }

  /** What ndef_deserialize leaves in the data, and whether it succeeds: a blob that is refused
      after its header was accepted has overwritten the data. */
  datatype Loading = Loading(data: Data, ok: bool)

  function Deserialize(d: Data, blob: seq<byte>, max: nat): (r: Loading)
    requires Shaped(d, max)
    ensures Shaped(r.data, max)
  {
    if |blob| < 1 + CcLen + 2 || blob[0] != 0x01 then Loading(d, false)
    else
      var len := (|blob| - 1 - CcLen) % 65536;
      var clean := ResetData(max).(cc := blob[1..16], ccLen := CcLen, fileLen := len);
      if len > 2 + max then Loading(clean, false)
      else
        var data := clean.(file := blob[16..16 + len] + Zeroes(2 + max - len));
        Loading(data, len >= 2 && Nlen(data.file) <= max && 2 + Nlen(data.file) == len)
  }

  /** Blobs are read back exactly when the length in the file is the length stored. */
  lemma DeserializeSerialized(d: Data, max: nat, outMax: nat, into: Data)
    requires Shaped(d, max) && Shaped(into, max) && Serialize(d, max, outMax).Some?
    ensures var r := Deserialize(into, Serialize(d, max, outMax).value, max);
            r.ok <==> d.fileLen >= 2 && d.fileLen == 2 + Nlen(d.file)
    ensures var r := Deserialize(into, Serialize(d, max, outMax).value, max);
            r.ok ==> r.data == Data(d.cc, d.file[..d.fileLen] + Zeroes(2 + max - d.fileLen), CcLen, d.fileLen)
  {
    hide Be16, Zeroes;
    var blob := Serialize(d, max, outMax).value;
    assert blob == [0x01] + d.cc + d.file[..d.fileLen];
    assert blob[1..16] == d.cc;
    assert blob[16..16 + d.fileLen] == d.file[..d.fileLen];
    Fits16(d.fileLen);
    if d.fileLen >= 2 {
      var f := blob[16..16 + d.fileLen] + Zeroes(2 + max - d.fileLen);
      assert f[0] == d.file[0] && f[1] == d.file[1];
      assert Nlen(f) == Nlen(d.file);
    }
  }

  lemma Fits16(n: nat)
    requires n < 65536
    ensures n % 65536 == n
  {
  }

  // ---------- the listener ----------

  datatype FileSel = NoFile | CcFile | NdefFile

  /** The listener's static variables, and how often it has told the stack that its data changed. */
  datatype Card = Card(model: Data, writable: bool, sel: FileSel, dirty: nat)

  datatype Turn = Turn(card: Card, rx: seq<byte>)

  function Sw(n: nat): (sw: seq<byte>)
    requires n < 65536
    ensures |sw| == 2
  { [Hi(n), Lo(n)] }

  /** ndef_listener_build_cc. */
  function BuildCc(max: nat, writable: bool): (cc: seq<byte>)
    requires 1 <= max <= 4096
    ensures |cc| == CcLen
  {
    [0x00, 0x0F, 0x20, Hi(max + 2), Lo(max + 2), Hi(max), Lo(max), 0x04, 0x06, 0xE1, 0x04, Hi(max), Lo(max), 0x00,
     if writable then 0x00 else 0xFF]
  }

  function OnSelect(c: Card): Turn { Turn(c.(sel := NoFile), Sw(0x9000)) }

  function SelectFile(c: Card, a: Command): Turn {
    if a.p1 != 0x00 || !(a.p2 == 0x00 || a.p2 == 0x0C) then Turn(c, Sw(0x6A86))
    else if |a.data| != 2 then Turn(c, Sw(0x6700))
    else if Be16(a.data[0], a.data[1]) == 0xE103 then Turn(c.(sel := CcFile), Sw(0x9000))
    else if Be16(a.data[0], a.data[1]) == 0xE104 then Turn(c.(sel := NdefFile), Sw(0x9000))
    else Turn(c, Sw(0x6A82))
  }

  /** ndef_listener_read_ne. */
  function Ne(a: Command, available: nat): nat {
    if !a.hasLe then available
    else if a.le == 0 then Min(available, if a.extended then 65536 else 256)
    else a.le
  }

  /** A read inside a file always asks for something: the listener's test for an empty read cannot
      fire, and is left out below. */
  lemma SomethingAsked(a: Command, available: nat)
    requires available > 0
    ensures Ne(a, available) > 0
  {
  }

  function FileOf(c: Card): seq<byte> { if c.sel == CcFile then c.model.cc else c.model.file }

  function ReadBinary(c: Card, a: Command): Turn {
    if c.sel == NoFile then Turn(c, Sw(0x6986))
    else
      var file, offset := FileOf(c), Be16(a.p1, a.p2);
      if offset >= |file| then Turn(c, Sw(0x6B00))
      else
        var available := |file| - offset;
        var actual := Min(Min(Ne(a, available), available), 253);
        Turn(c, file[offset..offset + actual] + Sw(0x9000))
  }

  function UpdateBinary(c: Card, a: Command): Turn {
    if c.sel == NoFile then Turn(c, Sw(0x6986))
    else if c.sel == CcFile || !c.writable then Turn(c, Sw(0x6985))
    else if |a.data| == 0 || Be16(a.p1, a.p2) + |a.data| > |c.model.file| then Turn(c, Sw(0x6700))
    else
      Turn(c.(model := c.model.(file := Overwrite(c.model.file, Be16(a.p1, a.p2), a.data)), dirty := c.dirty + 1), Sw(0x9000))
  }

  /** ndef_listener_on_apdu. */
  function OnApdu(c: Card, a: Command): Turn {
    if a.cla != 0x00 then Turn(c, Sw(0x6E00))
    else if a.ins == 0xA4 then SelectFile(c, a)
    else if a.ins == 0xB0 then ReadBinary(c, a)
    else if a.ins == 0xD6 then UpdateBinary(c, a)
    else Turn(c, Sw(0x6D00))
  }

  /** Every command gets one answer that fits the transport; the capability container and the
      shape of the data never change, and a read-only card never changes its data. */
  lemma Answered(c: Card, a: Command, max: nat)
    requires Shaped(c.model, max)
    ensures var t := OnApdu(c, a);
            && 2 <= |t.rx| <= 255 && Shaped(t.card.model, max) && t.card.writable == c.writable
            && t.card.model.cc == c.model.cc && t.card.model.ccLen == c.model.ccLen && t.card.model.fileLen == c.model.fileLen
            && (t.card.model != c.model ==> c.writable && c.sel == NdefFile && t.card.dirty == c.dirty + 1)
            && c.dirty <= t.card.dirty <= c.dirty + 1
  {
  }

  /** What was written is read back, and every other byte is as it was. */
  lemma ReadAfterUpdate(c: Card, up: Command, rd: Command)
    requires c.sel == NdefFile && c.writable && up.cla == rd.cla == 0x00 && up.ins == 0xD6 && rd.ins == 0xB0
    requires 0 < |up.data| <= 253 && Be16(up.p1, up.p2) + |up.data| <= |c.model.file|
    requires rd.p1 == up.p1 && rd.p2 == up.p2 && rd.hasLe && rd.le == |up.data|
    ensures OnApdu(OnApdu(c, up).card, rd).rx == up.data + Sw(0x9000)
    ensures var at := Be16(up.p1, up.p2);
            forall i :: 0 <= i < |c.model.file| && !(at <= i < at + |up.data|) ==>
              OnApdu(c, up).card.model.file[i] == c.model.file[i]
  {
    var at := Be16(up.p1, up.p2);
    var file := OnApdu(c, up).card.model.file;
    assert file == Overwrite(c.model.file, at, up.data);
    assert file[at..at + |up.data|] == up.data;
  }

  // ---------- saving and loading ----------

  /** ndef_listener_sync_file_len. */
  function Synced(d: Data, max: nat): (r: Data)
    requires Shaped(d, max)
    ensures Shaped(r, max)
  { if Nlen(d.file) <= max then d.(fileLen := 2 + Nlen(d.file)) else d }

  /** ndef_listener_pad_ndef_file. */
  function Padded(d: Data, max: nat): (r: Data)
    requires Shaped(d, max)
    ensures Shaped(r, max)
  {
    d.(file := if d.fileLen < 2 + max then d.file[..d.fileLen] + Zeroes(2 + max - d.fileLen) else d.file,
       fileLen := 2 + max)
  }

  /** ndef_listener_serialize: the card's data with its file length brought up to date. */
  function Save(c: Card, max: nat, outMax: nat): Option<seq<byte>>
    requires Shaped(c.model, max)
  { Serialize(Synced(c.model, max), max, outMax) }

  /** ndef_listener_deserialize. */
  function Load(c: Card, blob: seq<byte>, max: nat): (r: (Card, bool))
    requires Shaped(c.model, max)
    ensures Shaped(r.0.model, max)
  {
    var l := Deserialize(c.model, blob, max);
    if !l.ok then (c.(model := l.data), false)
    else
      var d := if l.data.cc == Zeroes(CcLen) then l.data.(cc := BuildCc(max, c.writable), ccLen := CcLen) else l.data;
      (c.(model := Padded(d, max)), true)
  }

  /** ndef_listener_init. */
  function Init(model: Option<Data>, writable: bool, max: nat): (c: Card)
    requires 1 <= max <= 4096 && (model.Some? ==> Shaped(model.value, max))
    ensures Shaped(c.model, max) && c.model.ccLen == CcLen
  {
    var d := if model.Some? then model.value else ResetData(max);
    var e := if d.ccLen == CcLen then d.(cc := d.cc[14 := if writable then 0x00 else 0xFF])
             else d.(cc := BuildCc(max, writable), ccLen := CcLen);
    Card(Padded(e, max), writable, NoFile, 0)
  }

  /** Files with the same message have the same length field. */
  lemma SameMessage(f: seq<byte>, g: seq<byte>)
    requires |f| >= 2 && 2 + Nlen(f) <= |f| && |g| >= 2 && 2 + Nlen(g) <= |g| && Message(f) == Message(g)
    ensures Nlen(f) == Nlen(g)
  {
    assert f[0] == Message(f)[0] && f[1] == Message(f)[1] && g[0] == Message(g)[0] && g[1] == Message(g)[1];
  }

  /** The message part of a file: its length field and as many bytes as that says. */
  function Message(file: seq<byte>): (m: seq<byte>)
    requires |file| >= 2 && 2 + Nlen(file) <= |file|
  { file[..2 + Nlen(file)] }

  predicate InRange(c: Card, max: nat) { Shaped(c.model, max) && c.model.ccLen == CcLen && Nlen(c.model.file) <= max }

  /** A card in range is saved exactly when its message fits the buffer. */
  lemma SavedIff(c: Card, max: nat, outMax: nat)
    requires InRange(c, max)
    ensures Save(c, max, outMax).Some? <==> 18 + Nlen(c.model.file) <= outMax
  {
  }

  /** Saving one card and loading into another carries over the capability container, filled in
      when it is blank, and the message, whatever either card was doing. */
  lemma LoadSaved(a: Card, b: Card, max: nat, outMax: nat)
    requires InRange(a, max) && Shaped(b.model, max) && outMax >= 18 + Nlen(a.model.file)
    ensures Save(a, max, outMax).Some?
    ensures var r := Load(b, Save(a, max, outMax).value, max);
            && r.1 && InRange(r.0, max) && Message(r.0.model.file) == Message(a.model.file)
            && r.0.model.cc == (if a.model.cc == Zeroes(CcLen) then BuildCc(max, b.writable) else a.model.cc)
            && r.0.sel == b.sel && r.0.writable == b.writable
  {
    var d := Synced(a.model, max);
    DeserializeSerialized(d, max, outMax, b.model);
    var n := d.fileLen;
    var file := d.file[..n] + Zeroes(2 + max - n);
    assert file[0] == d.file[0] && file[1] == d.file[1];
    assert file[..n] == d.file[..n];
  }

  // ---------- the code ----------

  class Listener {
    var model: Data
    var writable: bool
    var sel: FileSel
    var dirty: nat
    const max: nat

    function Value(): Card
      reads this
    { Card(model, writable, sel, dirty) }

    predicate Valid()
      reads this
    { Shaped(model, max) }

    /** ndef_listener_init. */
    constructor (image: Option<Data>, isWritable: bool, maxSize: nat)
      requires 1 <= maxSize <= 4096 && (image.Some? ==> Shaped(image.value, maxSize))
      ensures Valid() && max == maxSize && Value() == Init(image, isWritable, maxSize)
    {
      var c := Init(image, isWritable, maxSize);
      model, writable, sel, dirty, max := c.model, c.writable, c.sel, c.dirty, maxSize;
    }

    /** ndef_listener_on_select, and on_deselect and on_field_off without the answer. */
    method Select() returns (rx: seq<byte>)
      modifies this`sel
      ensures Turn(Value(), rx) == OnSelect(old(Value()))
    {
      sel := NoFile;
      return Sw(0x9000);
    }

    method HandleSelectFile(a: Command) returns (rx: seq<byte>)
      modifies this`sel
      ensures Turn(Value(), rx) == SelectFile(old(Value()), a)
    {
      if a.p1 != 0x00 { return Sw(0x6A86); }
      if !(a.p2 == 0x00 || a.p2 == 0x0C) { return Sw(0x6A86); }
      if |a.data| != 2 { return Sw(0x6700); }
      var id := Be16(a.data[0], a.data[1]);
      if id == 0xE103 { sel := CcFile; return Sw(0x9000); }
      if id == 0xE104 { sel := NdefFile; return Sw(0x9000); }
      return Sw(0x6A82);
    }

    method HandleReadBinary(a: Command) returns (rx: seq<byte>)
      requires Valid()
      ensures rx == ReadBinary(Value(), a).rx && ReadBinary(Value(), a).card == Value()
    {
      if sel == NoFile { return Sw(0x6986); }
      var file := if sel == CcFile then model.cc else model.file;
      var offset := Be16(a.p1, a.p2);
      if offset >= |file| { return Sw(0x6B00); }
      var available := |file| - offset;
      var ne := Ne(a, available);
      var actual := if ne < available then ne else available;
      if actual > 253 { actual := 253; }
      return file[offset..offset + actual] + Sw(0x9000);
    }

    method HandleUpdateBinary(a: Command) returns (rx: seq<byte>)
      requires Valid()
      modifies this`model, this`dirty
      ensures Turn(Value(), rx) == UpdateBinary(old(Value()), a)
    {
      if sel == NoFile { return Sw(0x6986); }
      if sel == CcFile { return Sw(0x6985); }
      if !writable { return Sw(0x6985); }
      if |a.data| == 0 { return Sw(0x6700); }
      var offset := Be16(a.p1, a.p2);
      if offset + |a.data| > 2 + max { return Sw(0x6700); }
      model := model.(file := Overwrite(model.file, offset, a.data));
      dirty := dirty + 1;
      return Sw(0x9000);
    }

    /** ndef_listener_on_apdu. */
    method Handle(a: Command) returns (rx: seq<byte>)
      requires Valid()
      modifies this
      ensures Turn(Value(), rx) == OnApdu(old(Value()), a)
      ensures Valid() && 2 <= |rx| <= 255 && writable == old(writable)
    {
      hide SelectFile, ReadBinary, UpdateBinary;
      Answered(Value(), a, max);
      if a.cla != 0x00 { return Sw(0x6E00); }
      if a.ins == 0xA4 { rx := HandleSelectFile(a); }
      else if a.ins == 0xB0 { rx := HandleReadBinary(a); }
      else if a.ins == 0xD6 { rx := HandleUpdateBinary(a); }
      else { rx := Sw(0x6D00); }
    }

    /** ndef_listener_serialize: brings the stored length up to date and writes the blob. */
    method SaveBlob(outMax: nat) returns (r: Option<seq<byte>>)
      requires Valid()
      modifies this`model
      ensures r == Save(old(Value()), max, outMax) && model == Synced(old(model), max) && Valid()
    {
      var nlen := Nlen(model.file);
      if nlen <= max { model := model.(fileLen := 2 + nlen); }
      return Serialize(model, max, outMax);
    }

    /** ndef_listener_deserialize. */
    method LoadBlob(blob: seq<byte>) returns (ok: bool)
      requires Valid()
      modifies this`model
      ensures (Value(), ok) == Load(old(Value()), blob, max) && Valid()
    {
      hide Deserialize, BuildCc;
      var l := Deserialize(model, blob, max);
      model := l.data;
      if !l.ok { return false; }
      if model.cc == Zeroes(CcLen) { model := model.(cc := BuildCc(max, writable), ccLen := CcLen); }
      model := Padded(model, max);
      return true;
    }
  }
}
