/** The NDEF Type 4 reader (ndef_poller.c) against the listening stack, and the comparison that
    ends a verification (nfc_applet_verify.c, nfc_applet_verify_compare.c).

    The reader only sees bytes: every command goes through the APDU parser and the router to the
    listener, and every answer comes back as one response. */
module NdefReader {
  import opened Bytes
  import opened Apdu
  import opened Router
  import opened Stack
  import Ndef

  // ---------- commands ----------

  const AidV2: seq<byte> := [0xD2, 0x76, 0x00, 0x00, 0x85, 0x01, 0x01]
  const AidV1: seq<byte> := [0xD2, 0x76, 0x00, 0x00, 0x85, 0x01, 0x00]

  const SelectV2 := Command(0x00, 0xA4, 0x04, 0x00, AidV2, 0, true, false)
  const SelectV1 := Command(0x00, 0xA4, 0x04, 0x00, AidV1, 0, false, false)

  function SelectFileCmd(hi: byte, lo: byte): Command { Command(0x00, 0xA4, 0x00, 0x0C, [hi, lo], 0, false, false) }

  function ReadCmd(offset: nat, length: nat): Command
    requires offset < 65536
  { Command(0x00, 0xB0, Hi(offset), Lo(offset), [], length, true, false) }

  lemma OnTheWire(hi: byte, lo: byte, offset: nat, length: nat)
    requires offset < 65536 && length < 256
    ensures Encoded(SelectV2) == [0x00, 0xA4, 0x04, 0x00, 0x07, 0xD2, 0x76, 0x00, 0x00, 0x85, 0x01, 0x01, 0x00]
    ensures Encoded(SelectV1) == [0x00, 0xA4, 0x04, 0x00, 0x07, 0xD2, 0x76, 0x00, 0x00, 0x85, 0x01, 0x00]
    ensures Encoded(SelectFileCmd(hi, lo)) == [0x00, 0xA4, 0x00, 0x0C, 0x02, hi, lo]
    ensures Encoded(ReadCmd(offset, length)) == [0x00, 0xB0, Hi(offset), Lo(offset), length as byte]
  {
  }

  predicate SwOk(rx: seq<byte>) { |rx| >= 2 && rx[|rx| - 2] == 0x90 && rx[|rx| - 1] == 0x00 }

  // ---------- pure parts of the reader ----------

  /** ndef_poller_cc_mle. */
  function Mle(cc: seq<byte>): (m: nat)
    requires |cc| == 15
    ensures m >= 2
  { if Be16(cc[3], cc[4]) < 2 then 2 else Be16(cc[3], cc[4]) }

  /** The most a data read asks for. */
  function Cap(cc: seq<byte>): (c: nat)
    requires |cc| == 15
    ensures 1 <= c <= 253
  { Min(Mle(cc) - 1, 253) }

  /** ndef_poller_read_chunk_le. */
  function ChunkLe(remaining: nat, mle: nat): nat
    requires mle >= 2
  { Min(Min(remaining, mle - 1), 253) }

  // ---------- what the stack answers ----------

  /** The router leads one of the reader's two names to the NDEF service. */
  predicate Offered(w: World) {
    Find(w.router.table, AidV2) == Some(NdefSvc) ||
    (Find(w.router.table, AidV2) == None && Find(w.router.table, AidV1) == Some(NdefSvc))
  }

  /** The capability container names a TLV of type 04 and file E104. */
  predicate NamesFile(cc: seq<byte>) { |cc| == 15 && cc[7] == 0x04 && cc[9] == 0xE1 && cc[10] == 0x04 }

  /** The reader is talking to the NDEF service, which has this file selected. */
  predicate Talking(w: World, card: Ndef.Card, sel: Ndef.FileSel) {
    w.router.active == Some(NdefSvc) && w.ndef == card.(sel := sel)
  }

  /** A SELECT of a registered name makes its service active and is answered 9000; one of an unknown
      name is answered 6A82 and changes nothing. */
  lemma SelectAnswered(w: World, c: Command, aid: seq<byte>, extendedOk: bool, max: nat)
    requires Sound(w, max) && Expressible(c, extendedOk) && SelectByAid(c) && c.data == aid
    ensures var r, svc := Served(w, Encoded(c), extendedOk, max), Find(w.router.table, aid);
            if svc.Some?
            then r.1 == [[0x90, 0x00]] && r.0.router == w.router.(active := svc)
                 && (svc.value == NdefSvc ==> Talking(r.0, w.ndef, Ndef.NoFile))
            else r.1 == [[0x6A, 0x82]] && r.0 == w
  {
    hide Parse, Encoded, Expressible, Find;
    ParseEncoded(c, extendedOk);
    FoundKnown(w.router.table, aid);
    var d := Dispatch(w.router, c);
    DispatchSound(w, c, max);
    var v := w.(router := d.0);
    hide Sound;
    if |d.1| == 1 {
      assert d.1 == [d.1[0]];
      One(v, d.1[0], max);
    } else {
      assert d.1 == [Deselected(w.router.active.value), Selected(Find(w.router.table, aid).value, aid)];
      Two(v, d.1[0], d.1[1], max);
    }
  }

  lemma Two(w: World, a: Call, b: Call, max: nat)
    requires Sound(w, max)
    ensures Sound(Perform(w, a, max).0, max)
    ensures PerformAll(w, [a, b], max) ==
            (Perform(Perform(w, a, max).0, b, max).0, Perform(w, a, max).1 + Perform(Perform(w, a, max).0, b, max).1)
  {
    hide Perform, Sound;
    PerformSound(w, a, max);
    assert [a, b][1..] == [b];
    One(Perform(w, a, max).0, b, max);
  }

  lemma FileSelected(w: World, card: Ndef.Card, from: Ndef.FileSel, hi: byte, lo: byte, extendedOk: bool, max: nat)
    requires Sound(w, max) && Talking(w, card, from) && hi == 0xE1 && (lo == 0x03 || lo == 0x04)
    ensures Served(w, Encoded(SelectFileCmd(hi, lo)), extendedOk, max) ==
            (w.(ndef := card.(sel := if lo == 0x03 then Ndef.CcFile else Ndef.NdefFile)), [[0x90, 0x00]])
  {
    hide Encoded, Sound, Served;
    ToNdef(w, SelectFileCmd(hi, lo), extendedOk, max);
  }

  lemma PartRead(w: World, card: Ndef.Card, sel: Ndef.FileSel, offset: nat, length: nat, extendedOk: bool, max: nat)
    requires Sound(w, max) && Talking(w, card, sel) && sel != Ndef.NoFile
    requires 0 < length <= 253 && offset + length <= |Ndef.FileOf(card.(sel := sel))| && offset < 65536
    ensures Served(w, Encoded(ReadCmd(offset, length)), extendedOk, max) ==
            (w, [Ndef.FileOf(card.(sel := sel))[offset..offset + length] + [0x90, 0x00]])
  {
    hide Encoded, Sound, Served;
    ToNdef(w, ReadCmd(offset, length), extendedOk, max);
    Be16RoundTrip(offset);
    assert w.(ndef := w.ndef) == w;
    hide Be16, Hi, Lo;
  }

  // ---------- the reader ----------

  method Transceive(dev: Device, tx: seq<byte>) returns (rx: seq<byte>)
    requires dev.Valid()
    modifies dev.router, dev.ndef, dev.desfire
    ensures dev.Valid() && 2 <= |rx| <= 255
    ensures (dev.Value(), [rx]) == Served(old(dev.Value()), tx, dev.extendedOk, dev.ndef.max)
  {
    hide Served, Sound;
    var buf := new NetBuf(0, tx);
    var responses := dev.OnBuffer(buf);
    rx := responses[0];
    assert responses == [rx];
  }

  /** The service the reader ends up with: that of its first name if it is registered, else of its
      second. */
  function Reached(w: World): Option<Service> {
    if Find(w.router.table, AidV2).Some? then Find(w.router.table, AidV2) else Find(w.router.table, AidV1)
  }

  /** ndef_poller_select_app: succeeds exactly when one of the names is registered, whoever by. */
  method SelectApp(dev: Device) returns (ok: bool)
    requires dev.Valid()
    modifies dev.router, dev.ndef, dev.desfire
    ensures dev.Valid()
    ensures ok <==> Reached(old(dev.Value())).Some?
    ensures ok ==> dev.router.active == Reached(old(dev.Value()))
    ensures Offered(old(dev.Value())) ==> Talking(dev.Value(), old(dev.Value().ndef), Ndef.NoFile)
    ensures ok && dev.router.active == Some(NdefSvc) <==> Offered(old(dev.Value()))
  {
    hide Served, Sound, Find, Encoded;
    OnTheWire(0, 0, 0, 0);
    ghost var w := dev.Value();
    SelectAnswered(w, SelectV2, AidV2, dev.extendedOk, dev.ndef.max);
    var rx := Transceive(dev, [0x00, 0xA4, 0x04, 0x00, 0x07, 0xD2, 0x76, 0x00, 0x00, 0x85, 0x01, 0x01, 0x00]);
    if SwOk(rx) { return true; }
    SelectAnswered(w, SelectV1, AidV1, dev.extendedOk, dev.ndef.max);
    rx := Transceive(dev, [0x00, 0xA4, 0x04, 0x00, 0x07, 0xD2, 0x76, 0x00, 0x00, 0x85, 0x01, 0x00]);
    return SwOk(rx);
  }

  /** With only DESFire registered, the reader's second name is DESFire's own: the reader is told 9000
      and talks to the wrong service. */
  lemma WrongService(w: World, maxAids: nat, extendedOk: bool, max: nat)
    requires Sound(w, max) && maxAids > 0 && w.router == Router.After([Register(AidV1, DesfireSvc)], maxAids)
    ensures !Offered(w) && Reached(w) == Some(DesfireSvc)
    ensures Served(w, Encoded(SelectV2), extendedOk, max) == (w, [[0x6A, 0x82]])
    ensures Served(w, Encoded(SelectV1), extendedOk, max).1 == [[0x90, 0x00]]
    ensures Served(w, Encoded(SelectV1), extendedOk, max).0.router.active == Some(DesfireSvc)
  {
    hide Served, Sound, Encoded;
    var history := [Register(AidV1, DesfireSvc)];
    assert history[..0] == [] && w.router.table == [Entry(AidV1, DesfireSvc)];
    assert AidV1[6] != AidV2[6];
    assert Find(w.router.table[1..], AidV2) == None;
    SelectAnswered(w, SelectV2, AidV2, extendedOk, max);
    SelectAnswered(w, SelectV1, AidV1, extendedOk, max);
  }

  /** A SELECT by file identifier. */
  method SelectFile(dev: Device, hi: byte, lo: byte, ghost card: Ndef.Card, ghost from: Ndef.FileSel) returns (ok: bool)
    requires dev.Valid()
    modifies dev.router, dev.ndef, dev.desfire
    ensures dev.Valid()
    ensures Talking(old(dev.Value()), card, from) && hi == 0xE1 && (lo == 0x03 || lo == 0x04) ==>
            ok && Talking(dev.Value(), card, if lo == 0x03 then Ndef.CcFile else Ndef.NdefFile)
  {
    hide Served, Sound, Encoded;
    OnTheWire(hi, lo, 0, 0);
    ghost var w := dev.Value();
    if Talking(w, card, from) && hi == 0xE1 && (lo == 0x03 || lo == 0x04) {
      FileSelected(w, card, from, hi, lo, dev.extendedOk, dev.ndef.max);
    }
    var rx := Transceive(dev, [0x00, 0xA4, 0x00, 0x0C, 0x02, hi, lo]);
    return SwOk(rx);
  }

  /** A READ BINARY that must bring at least the bytes asked for. */
  method ReadPart(dev: Device, offset: nat, length: nat, ghost card: Ndef.Card, ghost sel: Ndef.FileSel)
    returns (ok: bool, data: seq<byte>)
    requires dev.Valid() && 0 < length <= 253 && offset < 65536
    modifies dev.router, dev.ndef, dev.desfire
    ensures dev.Valid()
    ensures ok ==> |data| >= length
    ensures Talking(old(dev.Value()), card, sel) && sel != Ndef.NoFile
            && offset + length <= |Ndef.FileOf(card.(sel := sel))| ==>
            ok && Talking(dev.Value(), card, sel) && data == Ndef.FileOf(card.(sel := sel))[offset..offset + length]
  {
    hide Served, Sound, Encoded, Ndef.FileOf, Hi, Lo;
    OnTheWire(0, 0, offset, length);
    ghost var w := dev.Value();
    ghost var good := Talking(w, card, sel) && sel != Ndef.NoFile && offset + length <= |Ndef.FileOf(card.(sel := sel))|;
    if good { PartRead(w, card, sel, offset, length, dev.extendedOk, dev.ndef.max); }
    var rx := Transceive(dev, [0x00, 0xB0, Hi(offset), Lo(offset), length as byte]);
    if !SwOk(rx) { return false, []; }
    data := rx[..|rx| - 2];
    ok := |data| >= length;
  }

  /** One data read of the loop below. */
  method ReadChunk(dev: Device, done: nat, chunk: nat, ghost card: Ndef.Card) returns (ok: bool, data: seq<byte>)
    requires dev.Valid() && 0 < chunk <= 253 && done < 4096
    modifies dev.router, dev.ndef, dev.desfire
    ensures dev.Valid() && (ok ==> |data| == chunk)
    ensures Talking(old(dev.Value()), card, Ndef.NdefFile) && 2 + done + chunk <= |card.model.file| ==>
            ok && Talking(dev.Value(), card, Ndef.NdefFile) && data == card.model.file[2 + done..2 + done + chunk]
  {
    hide Sound, Talking;
    assert Ndef.FileOf(card.(sel := Ndef.NdefFile)) == card.model.file;
    ok, data := ReadPart(dev, 2 + done, chunk, card, Ndef.NdefFile);
    if ok { data := data[..chunk]; }
  }

  /** The data loop of ndef_poller_read. */
  method ReadMessage(dev: Device, nlen: nat, mle: nat, ghost card: Ndef.Card)
    returns (ok: bool, message: seq<byte>, count: nat)
    requires dev.Valid() && nlen <= 4096 && mle >= 2
    modifies dev.router, dev.ndef, dev.desfire
    ensures dev.Valid()
    ensures Talking(old(dev.Value()), card, Ndef.NdefFile) && 2 + nlen <= |card.model.file| ==>
            ok && Talking(dev.Value(), card, Ndef.NdefFile) && message == card.model.file[2..2 + nlen]
            && IsCeil(count, nlen, Min(mle - 1, 253))
  {
    hide Sound, IsCeil, Counted, ChunkLe, Talking, Min;
    ghost var file := card.model.file;
    ghost var good := Talking(dev.Value(), card, Ndef.NdefFile) && 2 + nlen <= |file|;
    ghost var cap := Min(mle - 1, 253);
    message, count := [], 0;
    if good { assert file[2..2] == []; }
    CountsNone(nlen, cap);
    while |message| < nlen
      invariant dev.Valid() && |message| <= nlen
      invariant good ==> Talking(dev.Value(), card, Ndef.NdefFile) && message == file[2..2 + |message|]
      invariant Counted(count, |message|, nlen, cap)
    {
      var chunk := ChunkLe(nlen - |message|, mle);
      ChunkIs(nlen - |message|, mle);
      Counts(count, |message|, nlen, cap, chunk);
      var data;
      ok, data := ReadChunk(dev, |message|, chunk, card);
      if !ok { return; }
      if good { Longer(file, |message|, chunk); }
      message := message + data;
      count := count + 1;
    }
    ok := true;
    CountsAll(count, nlen, cap);
  }

  lemma ChunkIs(remaining: nat, mle: nat)
    requires mle >= 2 && remaining > 0
    ensures ChunkLe(remaining, mle) == Min(remaining, Min(mle - 1, 253)) && 0 < ChunkLe(remaining, mle) <= 253
  {
  }

  lemma Longer(file: seq<byte>, n: nat, chunk: nat)
    requires 2 + n + chunk <= |file|
    ensures file[2..2 + n] + file[2 + n..2 + n + chunk] == file[2..2 + n + chunk]
  {
  }

  /** After some reads: full pieces so far, or everything. */
  predicate Counted(count: nat, done: nat, nlen: nat, cap: nat) {
    if done < nlen then done == count * cap else IsCeil(count, nlen, cap)
  }

  lemma Counts(count: nat, done: nat, nlen: nat, cap: nat, chunk: nat)
    requires Counted(count, done, nlen, cap) && done < nlen && chunk == Min(nlen - done, cap) && cap > 0
    ensures Counted(count + 1, done + chunk, nlen, cap)
  {
    assert (count + 1) * cap == count * cap + cap;
  }

  lemma CountsNone(nlen: nat, cap: nat)
    requires cap > 0
    ensures Counted(0, 0, nlen, cap)
  {
  }

  lemma SoundMax(w: World, max: nat)
    requires Sound(w, max)
    ensures 1 <= max <= 4096
  {
  }

  lemma CountsAll(count: nat, nlen: nat, cap: nat)
    requires Counted(count, nlen, nlen, cap)
    ensures IsCeil(count, nlen, cap)
  {
  }

  /** The reader's result for a card: its capability container and its message, nothing more. */
  function Polled(card: Ndef.Card, max: nat): Ndef.Data
    requires Ndef.InRange(card, max)
  {
    Ndef.Data(card.model.cc, Ndef.Message(card.model.file) + Zeroes(max - Ndef.Nlen(card.model.file)), 15,
              2 + Ndef.Nlen(card.model.file))
  }

  /** ndef_poller_read.  From any state of the stack in which the NDEF service is reachable and its
      card is in range, the reader returns exactly the card's container and message, in the least
      number of reads the advertised size allows. */
  method ReadNdef(dev: Device) returns (ok: bool, out: Ndef.Data, count: nat)
    requires dev.Valid()
    modifies dev.router, dev.ndef, dev.desfire
    ensures dev.Valid()
    ensures var card := old(dev.Value().ndef);
            Offered(old(dev.Value())) && Ndef.InRange(card, dev.ndef.max) && NamesFile(card.model.cc) ==>
            ok && out == Polled(card, dev.ndef.max) && dev.ndef.model == card.model
            && IsCeil(count, Ndef.Nlen(card.model.file), Cap(card.model.cc))
  {
    hide Sound, IsCeil, Offered, Reached, Talking, Mle, Be16;
    ghost var card := dev.Value().ndef;
    ghost var good := Offered(dev.Value()) && Ndef.InRange(card, dev.ndef.max) && NamesFile(card.model.cc);
    var max := dev.ndef.max;
    SoundMax(dev.Value(), max);
    out, count := Ndef.ResetData(max), 0;
    ok := SelectApp(dev);
    if !ok { return; }
    ok := SelectFile(dev, 0xE1, 0x03, card, Ndef.NoFile);
    if !ok { return; }
    var cc;
    ok, cc := ReadPart(dev, 0, 15, card, Ndef.CcFile);
    if !ok || |cc| != 15 { return false, out, count; }
    assert good ==> cc == card.model.cc;
    out := out.(cc := cc, ccLen := 15);
    if cc[7] != 0x04 { return false, out, count; }
    ok := SelectFile(dev, cc[9], cc[10], card, Ndef.CcFile);
    if !ok { return; }
    var head;
    ok, head := ReadPart(dev, 0, 2, card, Ndef.NdefFile);
    if !ok || |head| != 2 { return false, out, count; }
    var nlen := Be16(head[0], head[1]);
    assert good ==> nlen == Ndef.Nlen(card.model.file);
    if nlen > max { return false, out, count; }
    var message;
    ok, message, count := ReadMessage(dev, nlen, Mle(cc), card);
    if !ok || |message| != nlen { return false, out, count; }
    out := out.(file := head + message + Zeroes(max - nlen), fileLen := 2 + nlen);
    if good {
      TalkingTo(dev.Value(), card);
      assert head + message == Ndef.Message(card.model.file);
    }
  }

  lemma TalkingTo(w: World, card: Ndef.Card)
    requires Talking(w, card, Ndef.NdefFile)
    ensures w.ndef.model == card.model
  {
  }

  // ---------- verification of a stored card ----------

  /** nfc_applet_verify_compare without identifiers, on the bytes the lengths cover. */
  predicate Compares(expected: Ndef.Data, actual: Ndef.Data) {
    && expected.ccLen == actual.ccLen <= |expected.cc| && expected.ccLen <= |actual.cc|
    && expected.cc[..expected.ccLen] == actual.cc[..expected.ccLen]
    && expected.fileLen == actual.fileLen <= |expected.file| && expected.fileLen <= |actual.file|
    && expected.file[..expected.fileLen] == actual.file[..expected.fileLen]
  }

  /** What the stored length is brought up to date for: the copy a verification compares with. */
  lemma CopyIsPolled(card: Ndef.Card, max: nat, outMax: nat)
    requires Ndef.InRange(card, max) && outMax >= 18 + Ndef.Nlen(card.model.file)
    ensures Ndef.Save(card, max, outMax).Some?
    ensures Ndef.Deserialize(Ndef.ResetData(max), Ndef.Save(card, max, outMax).value, max)
         == Ndef.Loading(Polled(card, max), true)
  {
    hide Ndef.Deserialize;
    Ndef.DeserializeSerialized(Ndef.Synced(card.model, max), max, outMax, Ndef.ResetData(max));
  }

  /** The work of nfc_applet_verify.c, polling the very card that was loaded: whatever card was
      saved, if its message length is in range and its container names the NDEF file or is blank,
      loading the slot and reading it back compares equal. */
  method Verify(dev: Device, ghost saved: Ndef.Card, blob: seq<byte>, outMax: nat) returns (same: bool)
    requires dev.Valid()
    modifies dev.router, dev.ndef, dev.desfire
    ensures (SavedAs(saved, blob, dev.ndef.max, outMax) && Offered(old(dev.Value()))) ==> same
  {
    hide Ndef.Save, Ndef.Load, Ndef.Deserialize, Ndef.Synced, Ndef.BuildCc, Polled, Offered, IsCeil, Compares;
    var max := dev.ndef.max;
    ghost var w := dev.Value();
    ghost var good := SavedAs(saved, blob, max, outMax) && Offered(w);
    if good {
      Ndef.SavedIff(saved, max, outMax);
      Ndef.LoadSaved(saved, w.ndef, max, outMax);
    }
    var ok := dev.ndef.LoadBlob(blob);
    if !ok { return false; }
    ghost var card := dev.ndef.Value();
    LoadedOffers(w, dev.Value());
    if good {
      Ndef.SameMessage(card.model.file, saved.model.file);
      BuiltNames(max, card.writable);
      CopyIsPolled(card, max, outMax);
    }
    var copy := dev.ndef.SaveBlob(outMax);
    if copy.None? { return false; }
    if good { SyncedPolls(card, dev.ndef.Value(), max); }
    LoadedOffers(w, dev.Value());
    var expected := Ndef.Deserialize(Ndef.ResetData(max), copy.value, max);
    if !expected.ok { return false; }
    var actual, count;
    ok, actual, count := ReadNdef(dev);
    if !ok { return false; }
    if good { CompareReflexive(card, max); }
    same := Compares(expected.data, actual);
  }

  /** The blob is what this card saves, the card is in range, and its container names the file or is
      blank. */
  predicate SavedAs(saved: Ndef.Card, blob: seq<byte>, max: nat, outMax: nat) {
    Ndef.InRange(saved, max) && Ndef.Save(saved, max, outMax) == Some(blob)
    && (NamesFile(saved.model.cc) || saved.model.cc == Zeroes(15))
  }

  lemma LoadedOffers(w: World, v: World)
    requires w.router == v.router
    ensures Offered(w) == Offered(v)
  {
  }

  lemma BuiltNames(max: nat, writable: bool)
    requires 1 <= max <= 4096
    ensures NamesFile(Ndef.BuildCc(max, writable))
  {
  }

  lemma SyncedPolls(card: Ndef.Card, synced: Ndef.Card, max: nat)
    requires Ndef.InRange(card, max) && synced == card.(model := Ndef.Synced(card.model, max))
    ensures Ndef.InRange(synced, max) && Polled(synced, max) == Polled(card, max) && synced.model.cc == card.model.cc
  {
  }

  lemma CompareReflexive(card: Ndef.Card, max: nat)
    requires Ndef.InRange(card, max)
    ensures Compares(Polled(card, max), Polled(card, max))
  {
  }
}
