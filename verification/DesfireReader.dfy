/** The DESFire reader's exchanges (desfire_poller_i.c) against the listening stack: answers over
    additional frames, and file data in pieces the transport can carry. */
module DesfireReader {
  import opened Bytes
  import opened Apdu
  import opened Router
  import opened Stack
  import opened Desfire
  import Card = DesfireCard
  import NdefReader

  const AfCont := Command(0x90, 0xAF, 0x00, 0x00, [], 0, true, false)
  const VersionCmd := Command(0x90, 0x60, 0x00, 0x00, [], 0, true, false)

  function ReadDataCmd(id: byte, offset: nat, length: nat): Command {
    Command(0x90, 0xBD, 0x00, 0x00, [id, Lo(offset), Lo(offset / 256), Lo(offset / 256 / 256),
                                     Lo(length), Lo(length / 256), Lo(length / 256 / 256)], 0, false, false)
  }

  lemma OnTheWire(id: byte, offset: nat, length: nat)
    ensures Encoded(AfCont) == [0x90, 0xAF, 0x00, 0x00, 0x00] && Expressible(AfCont, false) && Expressible(AfCont, true)
    ensures Encoded(VersionCmd) == [0x90, 0x60, 0x00, 0x00, 0x00]
    ensures Encoded(ReadDataCmd(id, offset, length)) ==
            [0x90, 0xBD, 0x00, 0x00, 0x07, id, Lo(offset), Lo(offset / 256), Lo(offset / 256 / 256),
             Lo(length), Lo(length / 256), Lo(length / 256 / 256)]
  {
    hide Lo;
  }

  predicate Ends(rx: seq<byte>, sw2: byte) { |rx| >= 2 && rx[|rx| - 2] == 0x91 && rx[|rx| - 1] == sw2 }

  function Payload(rx: seq<byte>): seq<byte>
    requires |rx| >= 2
  { rx[..|rx| - 2] }

  // ---------- what a continuation can bring ----------

  /** Only a version answer in progress continues with another frame to follow; every other state
      of the stack ends the exchange.  This is why the reader's loop stops. */
  lemma Continues(w: World, extendedOk: bool, max: nat)
    requires Sound(w, max)
    ensures var r := Served(w, Encoded(AfCont), extendedOk, max);
            |r.1| == 1 && (Ends(r.1[0], 0xAF) ==>
              w.router.active == Some(DesfireSvc) && w.desfire.pending == Card.Version && r.0.desfire.pending == Card.Version
              && w.desfire.frame < 2 && r.0.desfire.frame == w.desfire.frame + 1)
  {
    hide Encoded, Served, Parse;
    OnTheWire(0, 0, 0);
    OneResponse(w, Encoded(AfCont), extendedOk, max);
    if w.router.active == Some(NdefSvc) {
      ToNdef(w, AfCont, extendedOk, max);
    } else if w.router.active == Some(DesfireSvc) {
      ToDesfire(w, AfCont, extendedOk, max);
      CardContinues(w.desfire);
    } else {
      NoService(w, AfCont, extendedOk, max);
    }
  }

  lemma NoService(w: World, c: Command, extendedOk: bool, max: nat)
    requires Sound(w, max) && Expressible(c, extendedOk) && !SelectByAid(c) && w.router.active == None
    ensures Served(w, Encoded(c), extendedOk, max) == (w, [[0x69, 0x86]])
  {
    hide Parse, Encoded, Expressible, Sound;
    ParseEncoded(c, extendedOk);
    One(w, Answered([0x69, 0x86]), max);
  }

  lemma CardContinues(c: Card.Card)
    requires Card.Sound(c)
    ensures var t := Card.OnApdu(c, AfCont);
            if c.pending == Card.Version then
              t.card == c.(frame := if c.frame < 2 then c.frame + 1 else c.frame, pending := if c.frame < 2 then Card.Version else Card.Nothing)
              && t.rx == (if c.frame < 2 then c.version[7 * c.frame..7 * c.frame + 7] + [0x91, 0xAF] else c.version[14..] + [0x91, 0x00])
            else !Ends(t.rx, 0xAF)
  {
  }

  // ---------- the exchange ----------

  /** desfire_poller_i_send_chunks. */
  method SendChunks(dev: Device, first: seq<byte>, outMax: nat) returns (ok: bool, data: seq<byte>)
    requires dev.Valid()
    modifies dev.router, dev.ndef, dev.desfire
    ensures dev.Valid()
    ensures var r := Served(old(dev.Value()), first, dev.extendedOk, dev.ndef.max);
            |r.1| == 1 && (Ends(r.1[0], 0x00) && |r.1[0]| - 2 <= outMax ==> ok && data == Payload(r.1[0]) && dev.Value() == r.0)
    ensures var r := Served(old(dev.Value()), first, dev.extendedOk, dev.ndef.max);
            outMax >= 28 && FirstFrame(r.0, r.1[0]) ==> ok && data == r.0.desfire.version
  {
    hide Served, Sound, Encoded;
    OnTheWire(0, 0, 0);
    ghost var w := dev.Value();
    ghost var r := Served(w, first, dev.extendedOk, dev.ndef.max);
    var rx := NdefReader.Transceive(dev, first);
    data := [];
    ghost var single := Ends(rx, 0x00) && |rx| - 2 <= outMax;
    ghost var framed := outMax >= 28 && FirstFrame(dev.Value(), rx);
    while true
      invariant dev.Valid() && |rx| >= 2
      invariant single ==> data == [] && rx == r.1[0] && dev.Value() == r.0
      invariant framed ==> Progress(dev.Value(), data, rx, r.0.desfire.version)
      decreases Measure(dev.Value(), rx)
    {
      var length := |rx| - 2;
      if framed { ProgressFits(dev.Value(), data, rx, r.0.desfire.version); }
      if |data| + length > outMax { return false, data; }
      ghost var before := data;
      data := data + rx[..length];
      if Ends(rx, 0x00) { return true, data; }
      if !Ends(rx, 0xAF) { return false, data; }
      Continues(dev.Value(), dev.extendedOk, dev.ndef.max);
      if framed { ProgressStep(dev.Value(), before, rx, r.0.desfire.version, dev.extendedOk, dev.ndef.max); }
      rx := NdefReader.Transceive(dev, [0x90, 0xAF, 0x00, 0x00, 0x00]);
    }
  }

  /** Frames still to come. */
  function Measure(w: World, rx: seq<byte>): nat {
    if !Ends(rx, 0xAF) then 0
    else if w.desfire.pending == Card.Version && w.desfire.frame <= 2 then 4 - w.desfire.frame else 1
  }

  /** The answer so far is a version answer's first frame. */
  predicate FirstFrame(w: World, rx: seq<byte>) {
    w.router.active == Some(DesfireSvc) && w.desfire.pending == Card.Version && w.desfire.frame == 1 && |w.desfire.version| == 28
    && rx == w.desfire.version[..7] + [0x91, 0xAF]
  }

  predicate Progress(w: World, data: seq<byte>, rx: seq<byte>, version: seq<byte>) {
    |version| == 28 && |rx| >= 2 &&
    if Ends(rx, 0x00) then data + Payload(rx) == version
    else Ends(rx, 0xAF) && w.router.active == Some(DesfireSvc) && w.desfire.pending == Card.Version && 1 <= w.desfire.frame <= 2
         && w.desfire.version == version && data + Payload(rx) == version[..7 * w.desfire.frame]
  }

  lemma ProgressFits(w: World, data: seq<byte>, rx: seq<byte>, version: seq<byte>)
    requires Progress(w, data, rx, version)
    ensures |data| + |rx| - 2 <= 28 && (Ends(rx, 0x00) || Ends(rx, 0xAF))
  {
  }

  lemma ProgressStep(w: World, data: seq<byte>, rx: seq<byte>, version: seq<byte>, extendedOk: bool, max: nat)
    requires Sound(w, max) && Progress(w, data, rx, version) && Ends(rx, 0xAF)
    ensures var r := Served(w, Encoded(AfCont), extendedOk, max);
            |r.1| == 1 && |r.1[0]| >= 2 && Progress(r.0, data + Payload(rx), r.1[0], version)
  {
    hide Encoded, Served, Sound;
    OnTheWire(0, 0, 0);
    ToDesfire(w, AfCont, extendedOk, max);
    CardContinues(w.desfire);
    var f := w.desfire.frame;
    var rest := if f < 2 then version[7 * f..7 * f + 7] else version[14..];
    var answer := Card.OnApdu(w.desfire, AfCont).rx;
    assert Payload(answer) == rest;
    if f < 2 { assert version[..7 * f] + rest == version[..7 * (f + 1)]; }
    else { assert version[..14] + rest == version; }
  }

  /** desfire_poller: GetVersion from any session without one in progress gives back the bytes the
      card built. */
  method GetVersion(dev: Device) returns (ok: bool, version: seq<byte>)
    requires dev.Valid()
    modifies dev.router, dev.ndef, dev.desfire
    ensures dev.Valid()
    ensures old(dev.Value()).router.active == Some(DesfireSvc) && old(dev.desfire.pending) != Card.Version ==>
            ok && version == Card.VersionBytes(old(dev.desfire.model))
  {
    hide Served, Encoded, Card.VersionBytes;
    OnTheWire(0, 0, 0);
    ghost var w := dev.Value();
    if w.router.active == Some(DesfireSvc) && w.desfire.pending != Card.Version {
      ToDesfire(w, VersionCmd, dev.extendedOk, dev.ndef.max);
    }
    ok, version := SendChunks(dev, [0x90, 0x60, 0x00, 0x00, 0x00], 255);
  }

  // ---------- file data ----------

  /** The selected application has this file under the id, and the session may read it. */
  predicate Found(c: Card.Card, id: byte, f: File) {
    Card.Sound(c) && Card.Readable(c, f) && Card.SelectedApp(c).Some? &&
    var files := Card.SelectedApp(c).value.files;
    Card.FindFile(files, id).Some? && files[Card.FindFile(files, id).value] == f
  }

  /** And no data answer is left unfinished. */
  predicate Serves(c: Card.Card, id: byte, f: File) { Found(c, id, f) && c.pending != Card.FileData }

  lemma Field24Back(n: nat)
    requires n < 0x1000000
    ensures Card.Field24(Lo(n), Lo(n / 256), Lo(n / 256 / 256)) == n
  {
    var a := n / 256;
    var b := a / 256;
    assert n == 256 * a + n % 256 && a == 256 * b + a % 256 && b < 256;
  }

  lemma FetchInside(f: File, from: nat, n: nat, beyond: (File, nat) -> byte)
    requires from + n <= |f.data|
    ensures Card.Fetch(f, from, n, beyond) == f.data[from..from + n]
  {
  }

  /** What a READ_DATA inside the file is answered with: bytes from the start the card chooses, as many
      as it wants and the transport carries. */
  lemma AnswerSends(c: Card.Card, id: byte, f: File, offset: nat, length: nat)
    requires Found(c, id, f) && offset + length <= |f.data| < 65536
    ensures var from, want := Card.StartOf(c, offset, Card.FileData), Card.WantOf(c, f, length, Card.FileData);
            Card.OnApdu(c, ReadDataCmd(id, offset, length)).rx ==
            Card.Fetch(f, from, Min(want, 253), c.beyond) + [0x91, if want > 253 then 0xAF else 0x00]
  {
    hide Lo, Card.Field24, Card.Fetch, Card.FindFile, Card.StartOf, Card.WantOf;
    Field24Back(offset);
    Field24Back(length);
  }

  /** The bytes sent lie inside the file exactly when no answer was left unfinished or it stopped
      inside this file. */
  lemma SentInsideIff(c: Card.Card, f: File, offset: nat, length: nat)
    requires c.offset < 65536 && offset + length <= |f.data| < 65536
    ensures Card.StartOf(c, offset, Card.FileData) + Min(Card.WantOf(c, f, length, Card.FileData), 253) <= |f.data|
            <==> c.pending != Card.FileData || c.offset <= |f.data|
  {
    WantsLeft(c, f, length);
  }

  lemma WantsLeft(c: Card.Card, f: File, length: nat)
    requires c.offset < 65536 && |f.data| < 65536
    ensures c.pending == Card.FileData ==>
            if c.offset <= |f.data| then Card.WantOf(c, f, length, Card.FileData) == |f.data| - c.offset
            else Card.WantOf(c, f, length, Card.FileData) > 253
  {
  }

  /** Otherwise every byte sent is memory behind the file. */
  lemma SentOutside(c: Card.Card, id: byte, f: File, offset: nat, length: nat)
    requires Found(c, id, f) && offset + length <= |f.data| < c.offset && c.pending == Card.FileData
    ensures var rx := Card.OnApdu(c, ReadDataCmd(id, offset, length)).rx;
            |rx| == 255 && forall i :: 0 <= i < 253 ==> rx[i] == c.beyond(f, c.offset + i)
  {
    hide Found;
    FoundSound(c, id, f);
    AnswerSends(c, id, f, offset, length);
    WantsLeft(c, f, length);
  }

  lemma FoundSound(c: Card.Card, id: byte, f: File)
    requires Found(c, id, f)
    ensures Card.Sound(c)
  {
  }

  /** A request of at most 253 bytes inside the file is answered with exactly those bytes if and only if
      no answer was left unfinished, or what was left of it is the same bytes. */
  lemma AnsweredExactlyIff(c: Card.Card, id: byte, f: File, offset: nat, length: nat)
    requires Found(c, id, f) && offset + length <= |f.data| < 65536 && length <= 253
    ensures Card.OnApdu(c, ReadDataCmd(id, offset, length)).rx == f.data[offset..offset + length] + [0x91, 0x00] <==>
            c.pending != Card.FileData ||
            (c.offset <= |f.data| <= c.offset + 253 && f.data[c.offset..] == f.data[offset..offset + length])
  {
    hide Found, Card.OnApdu, Card.Fetch;
    FoundSound(c, id, f);
    AnswerSends(c, id, f, offset, length);
    WantsLeft(c, f, length);
    var rx, slice := Card.OnApdu(c, ReadDataCmd(id, offset, length)).rx, f.data[offset..offset + length];
    if c.pending != Card.FileData {
      FetchInside(f, offset, length, c.beyond);
    } else if c.offset <= |f.data| <= c.offset + 253 {
      FetchInside(f, c.offset, |f.data| - c.offset, c.beyond);
      assert f.data[c.offset..|f.data|] == f.data[c.offset..];
      SameTail(f.data[c.offset..], slice);
    } else {
      assert rx[|rx| - 1] == 0xAF && (slice + [0x91, 0x00])[|slice| + 1] == 0x00;
    }
  }

  /** What is left of an unfinished answer is sent, whatever was asked for. */
  lemma UnfinishedGoesOn(c: Card.Card, id: byte, f: File, offset: nat, length: nat)
    requires Found(c, id, f) && offset + length <= |f.data| < 65536
    requires c.pending == Card.FileData && c.offset <= |f.data| <= c.offset + 253
    ensures Card.OnApdu(c, ReadDataCmd(id, offset, length)).rx == f.data[c.offset..] + [0x91, 0x00]
  {
    hide Found, Card.OnApdu, Card.Fetch;
    FoundSound(c, id, f);
    AnswerSends(c, id, f, offset, length);
    WantsLeft(c, f, length);
    FetchInside(f, c.offset, |f.data| - c.offset, c.beyond);
    assert f.data[c.offset..|f.data|] == f.data[c.offset..];
  }

  lemma SameTail(a: seq<byte>, b: seq<byte>)
    ensures a + [0x91, 0x00] == b + [0x91, 0x00] <==> a == b
  {
    if a + [0x91, 0x00] == b + [0x91, 0x00] {
      assert (a + [0x91, 0x00])[..|a|] == a && (b + [0x91, 0x00])[..|b|] == b;
    }
  }

  /** With nothing unfinished the answer is the slice, and the session goes on serving the file. */
  lemma PieceRead(c: Card.Card, id: byte, f: File, offset: nat, length: nat)
    requires Serves(c, id, f) && offset + length <= |f.data| < 65536 && length <= 253
    ensures var t := Card.OnApdu(c, ReadDataCmd(id, offset, length));
            t.rx == f.data[offset..offset + length] + [0x91, 0x00] && Serves(t.card, id, f)
  {
    AnsweredExactlyIff(c, id, f, offset, length);
    hide Lo, Card.Field24, Card.Fetch, Card.FindFile;
    Field24Back(offset);
    Field24Back(length);
  }

  // ---------- an unfinished answer, on a real card ----------

  function LongFile(): File { File(1, Settings(0, 0, 0, 0), seq(256, i requires 0 <= i < 256 => i as byte)) }
  function ShortFile(): File { File(2, Settings(0, 0, 0, 0), Zeroes(16)) }

  /** A card with a file of 256 bytes and one of 16, before anything is selected. */
  function TwoFiles(beyond: (File, nat) -> byte): (c: Card.Card)
    ensures Card.Sound(c)
  {
    var app := App([1, 2, 3], 0, [], [LongFile(), ShortFile()]);
    Card.Card(Desfire.Data(Zeroes(7), Zeroes(7), Zeroes(7), Zeroes(5), 0, 0, 0, Zeroes(16), 0, [app]),
              Card.Idle, None, Card.Nothing, 0, 0, Zeroes(28), beyond)
  }

  const SelectCmd := Command(0x90, 0x5A, 0x00, 0x00, [1, 2, 3], 0, false, false)

  lemma TwoFilesFound(beyond: (File, nat) -> byte)
    ensures var c := Card.OnApdu(TwoFiles(beyond), SelectCmd).card;
            Found(c, 1, LongFile()) && Found(c, 2, ShortFile()) && c.pending == Card.Nothing && c.beyond == beyond
  {
    var app := App([1, 2, 3], 0, [], [LongFile(), ShortFile()]);
    assert [1 as byte, 2, 3][..3] == [1, 2, 3];
    assert app.files[1..] == [ShortFile()];
    assert Card.FindFile([ShortFile()], 2) == Some(0);
  }

  /** Asking for the whole long file at once leaves its answer unfinished at byte 253. */
  lemma Unfinished(beyond: (File, nat) -> byte)
    ensures var c := Card.OnApdu(TwoFiles(beyond), SelectCmd).card;
            Card.Sound(c) &&
            var u := Card.OnApdu(c, ReadDataCmd(1, 0, 256)).card;
            u == c.(pending := Card.FileData, offset := 253)
  {
    TwoFilesFound(beyond);
    hide Lo, Card.Field24, Card.Fetch, Card.FindFile, Card.DataStatus;
    Field24Back(0);
    Field24Back(256);
  }

  /** Then a request for the first three bytes is answered with the last three. */
  lemma WrongSlice(beyond: (File, nat) -> byte)
    ensures var c := Card.OnApdu(TwoFiles(beyond), SelectCmd).card;
            Card.Sound(c) &&
            var u := Card.OnApdu(c, ReadDataCmd(1, 0, 256)).card;
            Card.Sound(u) &&
            Card.OnApdu(u, ReadDataCmd(1, 0, 3)).rx == [253, 254, 255, 0x91, 0x00]
  {
    TwoFilesFound(beyond);
    Unfinished(beyond);
    var c := Card.OnApdu(TwoFiles(beyond), SelectCmd).card;
    var u := c.(pending := Card.FileData, offset := 253);
    hide Card.OnApdu, Card.FindFile;
    FoundPending(c, 1, LongFile(), 253);
    LongTail();
    hide LongFile, Found, Card.Sound, TwoFiles, Card.SelectedApp;
    UnfinishedGoesOn(u, 1, LongFile(), 0, 3);
    assert LongFile().data[253..] == LongFile().data[253..256];
  }

  lemma FoundPending(c: Card.Card, id: byte, f: File, at: nat)
    requires Found(c, id, f) && at < 65536
    ensures Found(c.(pending := Card.FileData, offset := at), id, f) && Card.Sound(c.(pending := Card.FileData, offset := at))
  {
    hide Card.FindFile;
  }

  lemma LongTail()
    ensures |LongFile().data| == 256 && LongFile().data[253..256] == [253, 254, 255]
  {
  }

  /** And a request on the short file, even for nothing, is answered with 253 bytes of memory. */
  lemma MemorySent(beyond: (File, nat) -> byte, i: nat)
    requires i < 253
    ensures var c := Card.OnApdu(TwoFiles(beyond), SelectCmd).card;
            Card.Sound(c) &&
            var u := Card.OnApdu(c, ReadDataCmd(1, 0, 256)).card;
            Card.Sound(u) &&
            var rx := Card.OnApdu(u, ReadDataCmd(2, 0, 0)).rx;
            |rx| == 255 && rx[i] == beyond(ShortFile(), 253 + i)
  {
    TwoFilesFound(beyond);
    Unfinished(beyond);
    var c := Card.OnApdu(TwoFiles(beyond), SelectCmd).card;
    var u := c.(pending := Card.FileData, offset := 253);
    hide Card.OnApdu, Card.FindFile;
    FoundPending(c, 2, ShortFile(), 253);
    hide Found, Card.Sound, TwoFiles;
    SentOutside(u, 2, ShortFile(), 0, 0);
  }

  /** One READ_DATA command of the loop below. */
  method ReadPiece(dev: Device, id: byte, at: nat, size: nat, ghost f: File) returns (ok: bool, chunk: seq<byte>)
    requires dev.Valid() && size <= 253
    modifies dev.router, dev.ndef, dev.desfire
    ensures dev.Valid()
    ensures old(dev.router.active) == Some(DesfireSvc) && Serves(old(dev.Value().desfire), id, f) && at + size <= |f.data| < 65536 ==>
            ok && chunk == f.data[at..at + size]
            && dev.router.active == Some(DesfireSvc) && Serves(dev.Value().desfire, id, f)
  {
    hide Served, Sound, Encoded, Lo, Serves;
    OnTheWire(id, at, size);
    ghost var w := dev.Value();
    if w.router.active == Some(DesfireSvc) && Serves(w.desfire, id, f) && at + size <= |f.data| < 65536 {
      PieceServed(w, id, f, at, size, dev.extendedOk, dev.ndef.max);
    }
    ok, chunk := SendChunks(dev, [0x90, 0xBD, 0x00, 0x00, 0x07, id, Lo(at), Lo(at / 256), Lo(at / 256 / 256),
                                  Lo(size), Lo(size / 256), Lo(size / 256 / 256)], 255);
  }

  /** desfire_poller_i_read_file_data: exactly the requested slice, in the least number of commands
      the transport allows. */
  method ReadFileData(dev: Device, id: byte, offset: nat, length: nat, outMax: nat, ghost f: File)
    returns (ok: bool, out: seq<byte>, commands: nat)
    requires dev.Valid() && offset + length < 0x1_0000_0000
    modifies dev.router, dev.ndef, dev.desfire
    ensures dev.Valid()
    ensures var w := old(dev.Value());
            w.router.active == Some(DesfireSvc) && Serves(w.desfire, id, f) && offset + length <= |f.data| < 65536 && length <= outMax ==>
            ok && out == f.data[offset..offset + length] && IsCeil(commands, length, 253)
  {
    hide Sound, IsCeil, Serves, NdefReader.Counted;
    ghost var w := dev.Value();
    ghost var good := w.router.active == Some(DesfireSvc) && Serves(w.desfire, id, f) && offset + length <= |f.data| < 65536 && length <= outMax;
    var at, remaining: nat := offset, length;
    out, commands := [], 0;
    NdefReader.CountsNone(length, 253);
    if good { assert f.data[offset..offset] == []; }
    while remaining > 0
      invariant dev.Valid() && |out| + remaining == length && at == offset + |out|
      invariant good ==> dev.router.active == Some(DesfireSvc) && Serves(dev.Value().desfire, id, f) && out == f.data[offset..at]
      invariant good ==> NdefReader.Counted(commands, |out|, length, 253)
    {
      var size := Min(remaining, 253);
      if |out| + size > outMax { return false, out, commands; }
      if good { NdefReader.Counts(commands, |out|, length, 253, size); }
      var chunk;
      ok, chunk := ReadPiece(dev, id, at, size, f);
      if !ok { return; }
      if |chunk| > remaining { return false, out, commands; }
      if good { assert f.data[offset..at] + f.data[at..at + size] == f.data[offset..at + size]; }
      out, at, remaining := out + chunk, at + |chunk|, remaining - |chunk|;
      commands := commands + 1;
      if |chunk| < size { break; }
    }
    ok := true;
    if good { NdefReader.CountsAll(commands, length, 253); }
  }

  lemma PieceServed(w: World, id: byte, f: File, offset: nat, length: nat, extendedOk: bool, max: nat)
    requires Sound(w, max) && w.router.active == Some(DesfireSvc) && Serves(w.desfire, id, f)
    requires offset + length <= |f.data| < 65536 && length <= 253
    ensures var r := Served(w, Encoded(ReadDataCmd(id, offset, length)), extendedOk, max);
            && r.1 == [f.data[offset..offset + length] + [0x91, 0x00]] && r.0.router == w.router && Serves(r.0.desfire, id, f)
            && Ends(r.1[0], 0x00) && Payload(r.1[0]) == f.data[offset..offset + length]
  {
    hide Served, Encoded, Sound, Serves, Card.OnApdu, Lo;
    ToDesfire(w, ReadDataCmd(id, offset, length), extendedOk, max);
    PieceRead(w.desfire, id, f, offset, length);
    var part := f.data[offset..offset + length];
    assert (part + [0x91, 0x00])[..|part|] == part;
  }
}
