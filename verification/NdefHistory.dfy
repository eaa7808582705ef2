/** What an NDEF card answers, command by command, and what it holds after any run, told from the
    commands alone. */
module NdefHistory {
  import opened Bytes
  import opened Apdu
  import opened Ndef

  const Done: seq<byte> := [0x90, 0x00]

  function At(a: Command): nat { 256 * a.p1 as nat + a.p2 as nat }

  // ---------- one command ----------

  /** The file a SELECT names, if it is one that succeeds. */
  function Named(a: Command): Option<FileSel> {
    if a.cla != 0x00 || a.ins != 0xA4 || a.p1 != 0x00 || (a.p2 != 0x00 && a.p2 != 0x0C) then None
    else if a.data == [0xE1, 0x03] then Some(CcFile)
    else if a.data == [0xE1, 0x04] then Some(NdefFile)
    else None
  }

  /** A SELECT is answered 9000 exactly when it names a file, which is then the selected one; otherwise
      nothing changes and the answer says what was wrong. */
  lemma SelectAnswered(c: Card, a: Command)
    requires a.cla == 0x00 && a.ins == 0xA4
    ensures var t := OnApdu(c, a);
            && (t.rx == Done <==> Named(a).Some?)
            && t.card == (if Named(a).Some? then c.(sel := Named(a).value) else c)
            && (Named(a).None? ==>
                t.rx == if a.p1 != 0x00 || (a.p2 != 0x00 && a.p2 != 0x0C) then [0x6A, 0x86]
                        else if |a.data| != 2 then [0x67, 0x00] else [0x6A, 0x82])
  {
    if |a.data| == 2 { assert a.data == [a.data[0], a.data[1]]; }
  }

  /** The bytes a READ asks for, of those there are. */
  function Asked(a: Command, available: nat): nat {
    if !a.hasLe then available else if a.le > 0 then a.le else if a.extended then 65536 else 256
  }

  /** A READ BINARY never changes anything; it is answered with bytes of the selected file from the
      offset on, as many as asked for, as there are and as an answer holds. */
  lemma ReadAnswered(c: Card, a: Command, max: nat)
    requires Shaped(c.model, max) && a.cla == 0x00 && a.ins == 0xB0
    ensures var t, size := OnApdu(c, a), if c.sel == CcFile then 15 else 2 + max;
            && t.card == c
            && (c.sel == NoFile ==> t.rx == [0x69, 0x86])
            && (c.sel != NoFile && At(a) >= size ==> t.rx == [0x6B, 0x00])
            && (c.sel != NoFile && At(a) < size ==>
                var n := |t.rx| - 2;
                && n == Min(Min(Asked(a, size - At(a)), size - At(a)), 253) && t.rx[n..] == Done
                && forall i :: 0 <= i < n ==> t.rx[i] == (if c.sel == CcFile then c.model.cc else c.model.file)[At(a) + i])
  {
  }

  /** An UPDATE BINARY that goes through: the card is writable, the NDEF file selected, and there is data
      that ends inside the file. */
  predicate Writes(a: Command, writable: bool, sel: FileSel, max: nat) {
    a.cla == 0x00 && a.ins == 0xD6 && writable && sel == NdefFile && a.data != [] && At(a) + |a.data| <= 2 + max
  }

  predicate Covers(a: Command, i: nat) { At(a) <= i < At(a) + |a.data| }

  /** It is answered 9000 exactly then; the bytes it covers are replaced and a change is notified.
      Otherwise nothing changes and the answer says what was wrong. */
  lemma UpdateAnswered(c: Card, a: Command, max: nat)
    requires Shaped(c.model, max) && a.cla == 0x00 && a.ins == 0xD6
    ensures var t, ok := OnApdu(c, a), Writes(a, c.writable, c.sel, max);
            && (t.rx == Done <==> ok)
            && (!ok ==> t.card == c)
            && (!ok ==> t.rx == if c.sel == NoFile then [0x69, 0x86] else if c.sel == CcFile || !c.writable then [0x69, 0x85]
                                else [0x67, 0x00])
            && (ok ==>
                && t.card == c.(model := c.model.(file := t.card.model.file), dirty := c.dirty + 1)
                && |t.card.model.file| == 2 + max
                && forall i :: 0 <= i < 2 + max ==> t.card.model.file[i] == if Covers(a, i) then a.data[i - At(a)] else c.model.file[i])
  {
  }

  /** Nothing else is understood. */
  lemma OtherAnswered(c: Card, a: Command)
    requires a.cla != 0x00 || (a.ins != 0xA4 && a.ins != 0xB0 && a.ins != 0xD6)
    ensures OnApdu(c, a) == Turn(c, if a.cla != 0x00 then [0x6E, 0x00] else [0x6D, 0x00])
  {
  }

  // ---------- any run ----------

  function After(c: Card, run: seq<Command>): Card {
    if run == [] then c else OnApdu(After(c, run[..|run| - 1]), run[|run| - 1]).card
  }

  /** The file selected after a run: the one the latest successful SELECT named. */
  function SelectedBy(first: FileSel, run: seq<Command>): FileSel {
    if run == [] then first
    else
      var last := Named(run[|run| - 1]);
      if last.Some? then last.value else SelectedBy(first, run[..|run| - 1])
  }

  /** Command k of the run writes. */
  predicate WritesAt(c: Card, run: seq<Command>, k: nat, max: nat) {
    k < |run| && Writes(run[k], c.writable, SelectedBy(c.sel, run[..k]), max)
  }

  /** The latest write that covers a byte, if there is one. */
  predicate LastWrite(c: Card, run: seq<Command>, k: nat, i: nat, max: nat) {
    WritesAt(c, run, k, max) && Covers(run[k], i) &&
    forall j :: k < j < |run| ==> !(WritesAt(c, run, j, max) && Covers(run[j], i))
  }

  function Count(c: Card, run: seq<Command>, max: nat): nat {
    if run == [] then 0
    else Count(c, run[..|run| - 1], max) + if WritesAt(c, run, |run| - 1, max) then 1 else 0
  }

  lemma StepIs(c: Card, a: Command, max: nat)
    requires Shaped(c.model, max)
    ensures var d := OnApdu(c, a).card;
            && Shaped(d.model, max) && d.writable == c.writable && d.model.cc == c.model.cc
            && d.model.ccLen == c.model.ccLen && d.model.fileLen == c.model.fileLen
            && d.sel == (if Named(a).Some? then Named(a).value else c.sel)
            && d.dirty == c.dirty + (if Writes(a, c.writable, c.sel, max) then 1 else 0)
            && forall i :: 0 <= i < 2 + max ==>
                 d.model.file[i] == if Writes(a, c.writable, c.sel, max) && Covers(a, i) then a.data[i - At(a)] else c.model.file[i]
  {
    hide OnApdu, Named, Writes, Covers, At;
    Answered(c, a, max);
    if a.cla != 0x00 || (a.ins != 0xA4 && a.ins != 0xB0 && a.ins != 0xD6) { OtherAnswered(c, a); NotThese(c, a, max); }
    else if a.ins == 0xA4 { SelectAnswered(c, a); NotThese(c, a, max); }
    else if a.ins == 0xB0 { ReadAnswered(c, a, max); NotThese(c, a, max); }
    else { UpdateAnswered(c, a, max); NotThese(c, a, max); }
  }

  lemma NotThese(c: Card, a: Command, max: nat)
    ensures a.cla != 0x00 || a.ins != 0xA4 ==> Named(a).None?
    ensures a.cla != 0x00 || a.ins != 0xD6 ==> !Writes(a, c.writable, c.sel, max)
  {
  }

  lemma WritesAtPrefix(c: Card, run: seq<Command>, k: nat, max: nat)
    requires k < |run| - 1
    ensures WritesAt(c, run, k, max) == WritesAt(c, run[..|run| - 1], k, max)
  {
    assert run[..|run| - 1][..k] == run[..k];
  }

  /** After every run: the selected file is the one last named, the capability container is as it was,
      there was one notification per write, and every byte of the file is that of the latest write that
      covers it, or as it was at the start. */
  lemma {:induction false} RunIs(c: Card, run: seq<Command>, max: nat)
    requires Shaped(c.model, max)
    ensures var d := After(c, run);
            && Shaped(d.model, max) && d.writable == c.writable && d.model.cc == c.model.cc
            && d.model.ccLen == c.model.ccLen && d.model.fileLen == c.model.fileLen
            && d.sel == SelectedBy(c.sel, run) && d.dirty == c.dirty + Count(c, run, max)
    ensures forall i, k :: 0 <= i < 2 + max && 0 <= k && LastWrite(c, run, k, i, max) ==>
              After(c, run).model.file[i] == run[k].data[i - At(run[k])]
    ensures forall i :: 0 <= i < 2 + max && (forall k :: 0 <= k < |run| ==> !(WritesAt(c, run, k, max) && Covers(run[k], i))) ==>
              After(c, run).model.file[i] == c.model.file[i]
    decreases |run|
  {
    hide Writes, Named, OnApdu;
    if run != [] {
      var n := |run| - 1;
      var before := run[..n];
      RunIs(c, before, max);
      StepIs(After(c, before), run[n], max);
      forall k | 0 <= k < n ensures WritesAt(c, run, k, max) == WritesAt(c, before, k, max) && run[k] == before[k] {
        WritesAtPrefix(c, run, k, max);
      }
      forall i, k | 0 <= i < 2 + max && 0 <= k && LastWrite(c, run, k, i, max)
        ensures After(c, run).model.file[i] == run[k].data[i - At(run[k])]
      {
        if k < n { assert LastWrite(c, before, k, i, max); assert !(WritesAt(c, run, n, max) && Covers(run[n], i)); }
      }
    }
  }

  // ---------- how a card starts, and what is stored of it ----------

  /** A new card is empty: a container that announces one NDEF file E104 with room for max bytes, and a
      file of zeros. */
  lemma NewCard(writable: bool, max: nat)
    requires 1 <= max <= 4096
    ensures var c := Init(None, writable, max);
            && c.sel == NoFile && c.writable == writable && c.dirty == 0 && c.model.ccLen == 15 && c.model.fileLen == 2 + max
            && c.model.cc[..3] == [0x00, 0x0F, 0x20] && c.model.cc[7..11] == [0x04, 0x06, 0xE1, 0x04]
            && 256 * c.model.cc[3] as nat + c.model.cc[4] as nat == max + 2
            && 256 * c.model.cc[5] as nat + c.model.cc[6] as nat == max
            && 256 * c.model.cc[11] as nat + c.model.cc[12] as nat == max
            && c.model.cc[13] == 0x00 && c.model.cc[14] == (if writable then 0x00 else 0xFF)
            && |c.model.file| == 2 + max && forall i :: 0 <= i < 2 + max ==> c.model.file[i] == 0
  {
    Be16RoundTrip(max + 2);
    Be16RoundTrip(max);
    hide Hi, Lo;
  }

  /** A card that starts from an image keeps its container, but for the access byte, and its file up to
      the stored length. */
  lemma ImageKept(d: Data, writable: bool, max: nat)
    requires Shaped(d, max) && d.ccLen == 15
    ensures var c := Init(Some(d), writable, max);
            && c.model.cc[..14] == d.cc[..14] && c.model.cc[14] == (if writable then 0x00 else 0xFF) && c.sel == NoFile
            && c.model.ccLen == 15 && c.model.fileLen == 2 + max
            && forall i :: 0 <= i < 2 + max ==> c.model.file[i] == if i < d.fileLen then d.file[i] else 0
  {
  }

  /** The stored bytes: a version, the container, the length field and the message. */
  lemma SavedBytes(c: Card, max: nat, outMax: nat)
    requires InRange(c, max) && Save(c, max, outMax).Some?
    ensures var blob, n := Save(c, max, outMax).value, 256 * c.model.file[0] as nat + c.model.file[1] as nat;
            && |blob| == 18 + n && blob[0] == 0x01 && blob[1..16] == c.model.cc && blob[16..] == c.model.file[..2 + n]
  {
  }

  /** A card whose length field says more than the file holds is saved with its whole file, and that blob is
      never accepted again. */
  lemma OutOfRangeLost(c: Card, into: Data, max: nat, outMax: nat)
    requires Shaped(c.model, max) && Shaped(into, max) && c.model.ccLen == 15 && c.model.fileLen == 2 + max
    requires Nlen(c.model.file) > max
    ensures Save(c, max, outMax) == if outMax < 18 + max then None else Some([0x01] + c.model.cc + c.model.file)
    ensures outMax >= 18 + max ==> !Deserialize(into, Save(c, max, outMax).value, max).ok
  {
    assert c.model.file[..2 + max] == c.model.file;
    if outMax >= 18 + max {
      var blob := [0x01] + c.model.cc + c.model.file;
      assert blob[16] == c.model.file[0] && blob[17] == c.model.file[1];
      LoadedIff(into, blob, max);
    }
  }

  /** Two commands lead there from a new card: select the NDEF file and write FF FF at its start. */
  lemma TwoCommandsLose(max: nat, outMax: nat)
    requires 1 <= max <= 4096 && outMax >= 18 + max
    ensures var c := After(Init(None, true, max), [Command(0x00, 0xA4, 0x00, 0x0C, [0xE1, 0x04], 0, false, false),
                                                   Command(0x00, 0xD6, 0x00, 0x00, [0xFF, 0xFF], 0, false, false)]);
            Shaped(c.model, max) && Save(c, max, outMax).Some? && !Deserialize(ResetData(max), Save(c, max, outMax).value, max).ok
  {
    hide Save, Deserialize, BuildCc;
    var select := Command(0x00, 0xA4, 0x00, 0x0C, [0xE1, 0x04], 0, false, false);
    var update := Command(0x00, 0xD6, 0x00, 0x00, [0xFF, 0xFF], 0, false, false);
    var c, run := Init(None, true, max), [select, update];
    NewCard(true, max);
    RunIs(c, run, max);
    assert run[..1] == [select] && [select][..0] == [];
    assert SelectedBy(c.sel, [select]) == NdefFile;
    assert WritesAt(c, run, 1, max);
    assert LastWrite(c, run, 1, 0, max) && LastWrite(c, run, 1, 1, max);
    OutOfRangeLost(After(c, run), ResetData(max), max, outMax);
  }

  /** Which blobs are accepted.  The length is taken in sixteen bits. */
  lemma LoadedIff(d: Data, blob: seq<byte>, max: nat)
    requires Shaped(d, max)
    ensures Deserialize(d, blob, max).ok <==>
            |blob| >= 18 && blob[0] == 0x01 &&
            var n := 256 * blob[16] as nat + blob[17] as nat;
            n <= max && (|blob| - 16) % 65536 == 2 + n
  {
    if |blob| >= 18 {
      var len := (|blob| - 16) % 65536;
      if 2 <= len <= 2 + max {
        var f := blob[16..16 + len] + Zeroes(2 + max - len);
        assert f[0] == blob[16] && f[1] == blob[17];
      }
    }
  }

  /** So a blob that is 65536 bytes too long is accepted. */
  lemma WrappedBlob(d: Data, cc: seq<byte>, rest: seq<byte>, max: nat)
    requires Shaped(d, max) && |cc| == 15 && |rest| == 65536
    ensures Deserialize(d, [0x01] + cc + [0x00, 0x00] + rest, max).ok
  {
    var blob := [0x01] + cc + [0x00, 0x00] + rest;
    assert blob[16] == 0 && blob[17] == 0 && |blob| == 65554;
    LoadedIff(d, blob, max);
  }
}
