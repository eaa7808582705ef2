/** MIFARE Classic: the emulated card (classic_listener.c), the reader (classic_poller.c) and the
    memory layout they share (classic_i.c).

    The card and the reader are separate programs that only exchange frames.  The main result is
    about the two wired together: for every card image with a consistent UID, some of whose
    sectors have the default key while the others refuse it, whatever nonces the reader draws, the
    reader finds the card's type, asks for every block of those sectors once in order, keeps its
    cipher equal to the card's after every exchange and ends with exactly those blocks, byte for
    byte. */
module Classic {
  import opened Crypto1
  import opened Octets
  import opened Words
  import Crc16

  // ---------- layout ----------

  datatype CardType = Mini | OneK | FourK | Unknown

  function TotalSectors(t: CardType): nat {
    match t
    case Mini => 5
    case OneK => 16
    case FourK => 40
    case Unknown => 0
  }

  function TotalBlocks(t: CardType): nat {
    match t
    case Mini => 20
    case OneK => 64
    case FourK => 256
    case Unknown => 0
  }

  /** The sector of a block; setting the low bits before dividing changes nothing. */
  function SectorOf(block: nat): nat
    requires block < 256
  {
    if block < 128 then (block / 4 * 4 + 3) / 4 else 32 + ((block / 16 * 16 + 15) - 128) / 16
  }

  function FirstBlock(sector: nat): (block: nat)
    requires sector <= 40
    ensures block <= 256
  {
    if sector < 32 then sector * 4 else 128 + (sector - 32) * 16
  }

  function BlocksIn(sector: nat): nat { if sector < 32 then 4 else 16 }

  predicate IsTrailer(block: nat)
    requires block < 256
  {
    if block < 128 then block % 4 == 3 else block % 16 == 15
  }

  /** The sectors tile the card: each starts where the previous one ends, the last one ends with
      the card, and a block belongs to the one sector whose range contains it. */
  lemma SectorsTile(t: CardType, sector: nat, block: nat)
    requires sector < TotalSectors(t) && block < TotalBlocks(t)
    ensures FirstBlock(0) == 0 && FirstBlock(TotalSectors(t)) == TotalBlocks(t)
    ensures FirstBlock(sector + 1) == FirstBlock(sector) + BlocksIn(sector) <= TotalBlocks(t)
    ensures SectorOf(block) < TotalSectors(t)
    ensures SectorOf(block) == sector <==> FirstBlock(sector) <= block < FirstBlock(sector + 1)
    ensures IsTrailer(block) <==> block + 1 == FirstBlock(SectorOf(block) + 1)
  {
  }

  // ---------- data ----------

  const BlockSize := 16
  const MaxBlocks := 256

  /** classic_data_t.  The bit masks are kept as sets of the numbers whose bit is set. */
  datatype Data = Data(kind: CardType, uid: seq<bv8>, uidLen: nat, sak: bv8, atqa: seq<bv8>,
                       blocksRead: set<nat>, keysA: set<nat>, keysB: set<nat>, blocks: seq<seq<bv8>>)

  predicate WellFormed(d: Data) {
    |d.uid| == 10 && |d.atqa| == 2 && |d.blocks| == MaxBlocks &&
    forall i :: 0 <= i < MaxBlocks ==> |d.blocks[i]| == BlockSize
  }

  function ResetData(): (d: Data)
    ensures WellFormed(d)
  {
    Data(Unknown, Zeros(10), 0, 0, Zeros(2), {}, {}, {}, seq(MaxBlocks, i => Zeros(BlockSize)))
  }

  /** The four UID bytes the cipher is seeded with. */
  function CuidOf(uid: seq<bv8>, uidLen: nat): bv32
    requires |uid| == 10
  {
    WordOf(if uidLen == 7 then uid[3..7] else uid[..4])
  }

  const DefaultKey: bv64 := 0xFFFF_FFFF_FFFF

  function KeyFromBytes(bytes: seq<bv8>): bv64 {
    if bytes == [] then 0
    else Pushed(KeyFromBytes(bytes[..|bytes| - 1]), bytes[|bytes| - 1])
  }

  function Pushed(key: bv64, b: bv8): bv64 { (key << 8) | (b as bv64) }

  /** Key A is the first six bytes of the sector's trailer. */
  function KeyA(d: Data, block: nat): bv64
    requires WellFormed(d) && block < 256
  {
    var sector := SectorOf(block);
    KeyFromBytes(d.blocks[FirstBlock(sector) + BlocksIn(sector) - 1][..6])
  }

  // ---------- the card ----------

  /** The listener's static variables as a value. */
  datatype Card = Card(model: Data, cipher: Lfsr, nt: seq<bv8>, authBlock: nat, pending: bool, complete: bool)

  predicate ValidCard(c: Card) {
    WellFormed(c.model) && |c.nt| == 4 && c.authBlock < 256
  }

  const CmdAuthA: bv8 := 0x60
  const CmdAuthB: bv8 := 0x61
  const CmdRead: bv8 := 0x30

  function ResetAuth(c: Card): Card {
    c.(cipher := Lfsr(0, 0), pending := false, complete := false, authBlock := 0)
  }

  predicate BlockValid(d: Data, block: nat) { d.kind != Unknown && block < TotalBlocks(d.kind) }

  function NonceFor(sector: nat): seq<bv8>
    requires sector < 256
  {
    [0x10, 0, 0, Octet(sector)]
  }

  /** First authentication pass; the key selector is ignored by the code. */
  function AuthFirst(c: Card, block: nat): (Card, seq<bv8>)
    requires ValidCard(c) && block < 256
  {
    var r := ResetAuth(c);
    if !BlockValid(c.model, block) then (r, [])
    else
      var nt := NonceFor(SectorOf(block));
      var s := Opened(KeyA(c.model, block), CuidOf(c.model.uid, c.model.uidLen), WordOf(nt));
      (r.(cipher := s, nt := nt, authBlock := block, pending := true), nt)
  }

  /** Second pass: checks the reader's answer, sends its own. */
  function AuthSecond(c: Card, tx: seq<bv8>): (Card, seq<bv8>)
    requires ValidCard(c) && |tx| == 8
  {
    var nt := WordOf(c.nt);
    var s := WordRun(CardHeard(c.cipher, tx), 0, false, 32);
    if !CardAccepts(c.cipher, nt, tx) then (ResetAuth(c), [])
    else (c.(cipher := Absorb(s, Zeros(4), false), pending := false, complete := true),
          XorBytes(Stream(s, Zeros(4), false), BytesOf(Successor(nt, 96))))
  }

  /** An encrypted READ; the cipher moves on even when the command is refused. */
  function Read(c: Card, tx: seq<bv8>): (Card, seq<bv8>)
    requires ValidCard(c) && |tx| == 4
  {
    var plain := XorBytes(Stream(c.cipher, Zeros(4), false), tx);
    var s := Absorb(c.cipher, Zeros(4), false);
    var heard := c.(cipher := s);
    var block := Num(plain[1]);
    if !Crc16.Check(Crc16.Iso14443A, plain) || plain[0] != CmdRead then (heard, [])
    else if !BlockValid(c.model, block) || SectorOf(c.authBlock) != SectorOf(block) then (heard, [])
    else
      var reply := Crc16.Append(Crc16.Iso14443A, c.model.blocks[block]);
      (c.(cipher := Absorb(s, Zeros(|reply|), false)), XorBytes(Stream(s, Zeros(|reply|), false), reply))
  }

  /** classic_listener_on_tag_cmd; the empty sequence means that nothing is sent. */
  function TagCmd(c: Card, tx: seq<bv8>): (Card, seq<bv8>)
    requires ValidCard(c)
  {
    if c.pending && |tx| == 8 then AuthSecond(c, tx)
    else if |tx| == 2 then
      if tx[0] == CmdAuthA || tx[0] == CmdAuthB then AuthFirst(c, Num(tx[1])) else (c, [])
    else if c.complete && |tx| == 4 then Read(c, tx)
    else (c, [])
  }

  // ---------- one exchange at a time ----------

  /** Both ciphers once a reader with nonce nr is authenticated. */
  function Session(s: Lfsr, nr: seq<bv8>): Lfsr {
    Absorb(Absorb(Absorb(s, nr, false), Zeros(4), false), Zeros(4), false)
  }

  /** Authentication: the card accepts the frame built from its nonce and any reader nonce, and
      its cipher ends in the state the reader rebuilds from scratch; the card's own answer is, under
      the reader's key stream, the 96th successor of the nonce. */
  lemma AuthExchange(c: Card, block: nat, nr: seq<bv8>)
    requires ValidCard(c) && block < 256 && BlockValid(c.model, block) && |nr| == 4
    ensures var nt := NonceFor(SectorOf(block));
            var s := Opened(KeyA(c.model, block), CuidOf(c.model.uid, c.model.uidLen), WordOf(nt));
            var (c1, rx1) := TagCmd(c, [CmdAuthA, Octet(block)]);
            var (c2, rx2) := TagCmd(c1, ReaderFrame(s, WordOf(nt), nr));
            rx1 == nt && |rx2| == 4 &&
            XorBytes(Stream(Absorb(Absorb(s, nr, false), Zeros(4), false), Zeros(4), false), rx2) == BytesOf(Successor(WordOf(nt), 96)) &&
            c2 == c.(cipher := Session(s, nr), nt := nt, authBlock := block, pending := false, complete := true)
  {
    hide Opened, KeyA, CuidOf, WordOf, ReaderFrame, CardAccepts, CardHeard, Absorb, Stream, WordRun,
      NonceFor, Num, Octet, Successor, BytesOf;
    var nt := NonceFor(SectorOf(block));
    NonceLength(SectorOf(block));
    var s := Opened(KeyA(c.model, block), CuidOf(c.model.uid, c.model.uidLen), WordOf(nt));
    ReaderFrameAccepted(s, WordOf(nt), nr);
    CardHearsNonce(s, WordOf(nt), nr);
    WordIsFourBytes(Absorb(s, nr, false), 0, false);
    BytesOfZero();
    hide XorBytes;
    XorTwice(Stream(Absorb(Absorb(s, nr, false), Zeros(4), false), Zeros(4), false), BytesOf(Successor(WordOf(nt), 96)));
  }

  /** Whether the card takes the frame a reader builds with some key and some idea of the UID. */
  predicate FrameAccepted(m: Data, block: nat, key: bv64, cuid: bv32, nr: seq<bv8>)
    requires WellFormed(m) && block < 256 && |nr| == 4
  {
    NonceLength(SectorOf(block));
    var nt := WordOf(NonceFor(SectorOf(block)));
    CardAccepts(Opened(KeyA(m, block), CuidOf(m.uid, m.uidLen), nt), nt, ReaderFrame(Opened(key, cuid, nt), nt, nr))
  }

  /** The second pass is answered exactly when the frame is accepted. */
  lemma AuthAnswered(c: Card, block: nat, key: bv64, cuid: bv32, nr: seq<bv8>)
    requires ValidCard(c) && block < 256 && BlockValid(c.model, block) && |nr| == 4
    ensures |NonceFor(SectorOf(block))| == 4
    ensures var nt := WordOf(NonceFor(SectorOf(block)));
            var c1 := TagCmd(c, [CmdAuthA, Octet(block)]).0;
            var rx := TagCmd(c1, ReaderFrame(Opened(key, cuid, nt), nt, nr)).1;
            ValidCard(c1) && (|rx| == 4 <==> FrameAccepted(c.model, block, key, cuid, nr)) && (|rx| == 4 || rx == [])
  {
    hide Opened, KeyA, CuidOf, WordOf, ReaderFrame, CardAccepts, CardHeard, Absorb, Stream, WordRun,
      NonceFor, Num, Octet, Successor, BytesOf;
    NonceLength(SectorOf(block));
  }

  lemma NonceLength(sector: nat)
    requires sector < 256
    ensures |NonceFor(sector)| == 4
  {
  }

  /** A read: the reader's encrypted command is understood and the reply decrypts, with the same
      cipher moved on by the command, to the block and its CRC. */
  lemma ReadExchange(c: Card, block: nat)
    requires ValidCard(c) && c.complete && block < 256 && BlockValid(c.model, block)
    requires SectorOf(c.authBlock) == SectorOf(block)
    ensures var cmd := Crc16.Append(Crc16.Iso14443A, [0x30, Octet(block)]);
            var s := Absorb(c.cipher, Zeros(4), false);
            var (c', rx) := TagCmd(c, XorBytes(Stream(c.cipher, Zeros(4), false), cmd));
            |rx| == 18 && c' == c.(cipher := Absorb(s, Zeros(18), false)) &&
            XorBytes(Stream(s, Zeros(18), false), rx) == Crc16.Append(Crc16.Iso14443A, c.model.blocks[block])
  {
    hide Absorb, Stream, Num, Octet, Crc16.Crc, Crc16.Low, Crc16.High, SectorOf, XorBytes;
    var cmd := Crc16.Append(Crc16.Iso14443A, [CmdRead, Octet(block)]);
    XorTwice(Stream(c.cipher, Zeros(4), false), cmd);
    Crc16.AppendPassesIff(Crc16.Iso14443A, [CmdRead, Octet(block)]);
    var s := Absorb(c.cipher, Zeros(4), false);
    XorTwice(Stream(s, Zeros(18), false), Crc16.Append(Crc16.Iso14443A, c.model.blocks[block]));
  }

  /** An authenticated card answers an encrypted frame exactly when it decrypts to a READ, with its CRC, of a
      block of the sector that was authenticated. */
  lemma ReadAnsweredIff(c: Card, plain: seq<bv8>)
    requires ValidCard(c) && c.complete && |plain| == 4
    ensures var rx := TagCmd(c, XorBytes(Stream(c.cipher, Zeros(4), false), plain)).1;
            rx != [] <==> && plain == Crc16.Append(Crc16.Iso14443A, [0x30, plain[1]]) && BlockValid(c.model, Num(plain[1]))
                          && SectorOf(Num(plain[1])) == SectorOf(c.authBlock)
  {
    hide Absorb, Stream, Num, SectorOf, XorBytes, Crc16.Crc, Crc16.Low, Crc16.High, Crc16.Check;
    XorTwice(Stream(c.cipher, Zeros(4), false), plain);
    Crc16.CheckIffAppended(Crc16.Iso14443A, plain);
    assert plain[..2] == [plain[0], plain[1]];
  }

  // ---------- the listener object ----------

  class Listener {
    var model: Data
    var initialized: bool
    const cipher: Cipher
    var nt: seq<bv8>
    var authBlock: nat
    var pending: bool
    var complete: bool

    function Value(): Card
      reads this, cipher
    { Card(model, cipher.State(), nt, authBlock, pending, complete) }

    ghost predicate Valid()
      reads this, cipher
    { ValidCard(Value()) }

    constructor (m: Data)
      requires WellFormed(m)
      ensures Valid() && initialized && fresh(cipher)
      ensures Value() == Card(m, Lfsr(0, 0), Zeros(4), 0, false, false)
    {
      model, initialized, nt, authBlock, pending, complete := m, true, Zeros(4), 0, false, false;
      cipher := new Cipher();
    }

    method ResetAuthState()
      modifies this, cipher
      ensures Value() == ResetAuth(old(Value())) && initialized == old(initialized)
    {
      cipher.Reset();
      pending, complete, authBlock := false, false, 0;
    }

    method HandleAuthFirst(tx: seq<bv8>) returns (rx: seq<bv8>)
      requires Valid() && |tx| == 2
      modifies this, cipher
      ensures (Value(), rx) == AuthFirst(old(Value()), Num(tx[1]))
      ensures Valid() && initialized == old(initialized)
    {
      hide Num, SectorOf, KeyA, CuidOf, WordOf, NonceFor, KeyState, WordRun, WordOut;
      ResetAuthState();
      var block := Num(tx[1]);
      if !BlockValid(model, block) {
        return [];
      }
      SectorsTile(model.kind, 0, block);
      var key := KeyA(model, block);
      nt := NonceFor(SectorOf(block));
      NonceLength(SectorOf(block));
      authBlock := block;
      var cuid := CuidOf(model.uid, model.uidLen);
      cipher.Reset();
      cipher.Init(key);
      var _ := cipher.Word(WordOf(nt) ^ cuid, false);
      rx := nt;
      pending := true;
      complete := false;
    }

    method HandleAuthSecond(tx: seq<bv8>) returns (rx: seq<bv8>)
      requires Valid() && |tx| == 8
      modifies this, cipher
      ensures (Value(), rx) == AuthSecond(old(Value()), tx)
      ensures Valid() && initialized == old(initialized)
    {
      hide WordOf, WordRun, WordOut, Xor32, Successor, BytesOf, Absorb, Stream, XorBytes;
      var _ := cipher.Word(WordOf(tx[..4]), true);
      var ks := cipher.Word(0, false);
      var expected := PrngSuccessor(WordOf(nt), 64);
      if Xor32(WordOf(tx[4..]), ks) != expected {
        ResetAuthState();
        return [];
      }
      var at := PrngSuccessor(WordOf(nt), 96);
      rx := cipher.Crypt(BytesOf(at));
      pending := false;
      complete := true;
    }

    method HandleRead(tx: seq<bv8>) returns (rx: seq<bv8>)
      requires Valid() && |tx| == 4
      modifies this, cipher
      ensures (Value(), rx) == Read(old(Value()), tx)
      ensures Valid() && initialized == old(initialized)
    {
      hide Absorb, Stream, XorBytes, Num, Crc16.Check, Crc16.Append, SectorOf;
      var plain := cipher.Crypt(tx);
      if !Crc16.Check(Crc16.Iso14443A, plain) || plain[0] != CmdRead {
        return [];
      }
      var block := Num(plain[1]);
      if !BlockValid(model, block) || SectorOf(authBlock) != SectorOf(block) {
        return [];
      }
      rx := cipher.Crypt(Crc16.Append(Crc16.Iso14443A, model.blocks[block]));
    }

    method OnTagCmd(tx: seq<bv8>) returns (rx: seq<bv8>)
      requires Valid()
      modifies this, cipher
      ensures Valid() && initialized == old(initialized) && model == old(model)
      ensures initialized ==> (Value(), rx) == TagCmd(old(Value()), tx)
      ensures !initialized ==> Value() == old(Value()) && rx == []
    {
      hide AuthFirst, AuthSecond, Read;
      if !initialized || tx == [] {
        return [];
      }
      KeepsModel(Value(), tx);
      if pending && |tx| == 8 {
        rx := HandleAuthSecond(tx);
        return;
      }
      if |tx| == 2 {
        if tx[0] == CmdAuthA || tx[0] == CmdAuthB {
          rx := HandleAuthFirst(tx);
        } else {
          rx := [];
        }
        return;
      }
      if complete && |tx| == 4 {
        rx := HandleRead(tx);
        return;
      }
      rx := [];
    }
  }

  /** No command changes the card's memory. */
  lemma KeepsModel(c: Card, tx: seq<bv8>)
    requires ValidCard(c)
    ensures TagCmd(c, tx).0.model == c.model && ValidCard(TagCmd(c, tx).0)
  {
    hide Num, KeyA, CuidOf, WordOf, Opened, Absorb, Stream, WordRun, CardAccepts, CardHeard, Crc16.Check,
      Crc16.Append, Successor, BytesOf, XorBytes;
  }

  // ---------- the reader ----------

  /** Sends [AUTH A, block] and expects a four-byte nonce. */
  method GetNonce(card: Listener, block: nat) returns (ok: bool, nt: seq<bv8>)
    requires card.Valid() && card.initialized && block < 256
    modifies card, card.cipher
    ensures card.Valid() && card.initialized && card.model == old(card.model)
    ensures card.Value() == TagCmd(old(card.Value()), [CmdAuthA, Octet(block)]).0
    ensures nt == TagCmd(old(card.Value()), [CmdAuthA, Octet(block)]).1
    ensures ok <==> |nt| == 4
  {
    hide TagCmd;
    nt := card.OnTagCmd([CmdAuthA, Octet(block)]);
    ok := |nt| == 4;
  }

  /** classic_poller_auth; nr are the reader's random bytes. */
  method Auth(card: Listener, cipher: Cipher, uid: seq<bv8>, uidLen: nat, block: nat, key: bv64, nr: seq<bv8>)
    returns (ok: bool)
    requires card.Valid() && card.initialized && cipher != card.cipher
    requires block < 256 && |uid| == 10 && |nr| == 4
    modifies card, card.cipher, cipher
    ensures card.Valid() && card.initialized && card.model == old(card.model)
    ensures ok <==> BlockValid(card.model, block) && FrameAccepted(card.model, block, key, CuidOf(uid, uidLen), nr)
    ensures BlockValid(card.model, block) && key == KeyA(card.model, block) &&
            CuidOf(uid, uidLen) == CuidOf(card.model.uid, card.model.uidLen) ==>
              ok && cipher.State() == card.cipher.State() && card.complete && card.authBlock == block
  {
    hide KeyA, CuidOf, WordOf, Opened, ReaderFrame, TagCmd, Session, Absorb, WordRun, WordOut, NonceFor, SectorOf;
    hide FrameAccepted;
    ghost var c := card.Value();
    ProbeAnswered(c, block);
    var got, nt := GetNonce(card, block);
    if !got {
      return false;
    }
    var cuid := CuidOf(uid, uidLen);
    var tx := cipher.EncryptReaderNonce(key, cuid, nt, nr);
    AuthExchange(c, block, nr);
    AuthAnswered(c, block, key, cuid, nr);
    var rx := card.OnTagCmd(tx);
    if |rx| != 4 {
      return false;
    }
    Rebuild(cipher, key, cuid, nt, nr);
    ok := true;
  }

  /** The second half of classic_poller_auth: the cipher is initialised again and run through the
      whole authentication. */
  method Rebuild(cipher: Cipher, key: bv64, cuid: bv32, nt: seq<bv8>, nr: seq<bv8>)
    requires |nt| == 4 && |nr| == 4
    modifies cipher
    ensures cipher.State() == Session(Opened(key, cuid, WordOf(nt)), nr)
  {
    hide KeyState, WordOf, WordRun, WordOut, ByteRun, ByteOut, Absorb, Stream;
    cipher.Init(key);
    var _ := cipher.Word(WordOf(nt) ^ cuid, false);
    ghost var s := cipher.State();
    AbsorbNothing(s);
    for i := 0 to 4
      invariant cipher.State() == Absorb(s, nr[..i], false)
    {
      assert nr[..i + 1] == nr[..i] + [nr[i]];
      Snoc(s, nr[..i], nr[i], false);
      var _ := cipher.Byte(nr[i], false);
    }
    assert nr[..4] == nr;
    ghost var t := cipher.State();
    AbsorbNothing(t);
    for i := 0 to 4
      invariant cipher.State() == Absorb(t, Zeros(i), false)
    {
      ZerosSnoc(i);
      Snoc(t, Zeros(i), 0, false);
      var _ := cipher.Byte(0, false);
    }
    WordIsFourBytes(cipher.State(), 0, false);
    BytesOfZero();
    var _ := cipher.Word(0, false);
  }

  /** classic_poller_read_block. */
  method ReadBlock(card: Listener, cipher: Cipher, block: nat) returns (ok: bool, out: seq<bv8>)
    requires card.Valid() && card.initialized && cipher != card.cipher && block < 256
    modifies card, card.cipher, cipher
    ensures card.Valid() && card.initialized && card.model == old(card.model)
    ensures ok ==> |out| == BlockSize
    ensures old(card.complete) && old(cipher.State()) == old(card.cipher.State()) &&
            BlockValid(card.model, block) && SectorOf(old(card.authBlock)) == SectorOf(block) ==>
              ok && out == card.model.blocks[block] && cipher.State() == card.cipher.State() &&
              card.complete && card.authBlock == old(card.authBlock)
  {
    hide Absorb, Stream, XorBytes, SectorOf, TagCmd, Crc16.Check, Crc16.Crc;
    ghost var c := card.Value();
    ghost var good := c.complete && cipher.State() == c.cipher && BlockValid(c.model, block) &&
                      SectorOf(c.authBlock) == SectorOf(block);
    if good {
      ReadExchange(c, block);
      Crc16.AppendPassesIff(Crc16.Iso14443A, c.model.blocks[block]);
    }
    var tx := cipher.Crypt(Crc16.Append(Crc16.Iso14443A, [CmdRead, Octet(block)]));
    var rx := card.OnTagCmd(tx);
    if |rx| < BlockSize + 2 {
      return false, [];
    }
    var plain := cipher.Crypt(rx);
    if !Crc16.Check(Crc16.Iso14443A, plain) {
      return false, [];
    }
    if |plain| - 2 != BlockSize {
      return false, [];
    }
    ok, out := true, plain[..BlockSize];
  }

  /** classic_poller_detect_type: probes for the blocks only larger cards have. */
  method DetectType(card: Listener) returns (t: CardType)
    requires card.Valid() && card.initialized
    modifies card, card.cipher
    ensures card.Valid() && card.initialized && card.model == old(card.model)
    ensures t != Unknown && (card.model.kind != Unknown ==> t == card.model.kind)
  {
    hide TagCmd;
    ProbeAnswered(card.Value(), 254);
    var ok, _ := GetNonce(card, 254);
    if ok {
      return FourK;
    }
    ProbeAnswered(card.Value(), 62);
    var found, _ := GetNonce(card, 62);
    if found {
      return OneK;
    }
    t := Mini;
  }

  /** An authentication request is answered exactly for the blocks the card has. */
  lemma ProbeAnswered(c: Card, block: nat)
    requires ValidCard(c) && block < 256
    ensures |TagCmd(c, [CmdAuthA, Octet(block)]).1| == 4 <==> BlockValid(c.model, block)
    ensures BlockValid(c.model, block) <==> c.model.kind == FourK || (c.model.kind == OneK && block < 64) || (c.model.kind == Mini && block < 20)
  {
    hide Num, Octet, KeyA, CuidOf, WordOf, Opened;
  }

  /** The UID the reader holds after reading a block: blocks 0 and 1 overwrite it. */
  function UidAfter(uid: seq<bv8>, uidLen: nat, block: nat, buf: seq<bv8>): (r: (seq<bv8>, nat))
    requires |uid| == 10 && |buf| == BlockSize
    ensures |r.0| == 10
  {
    if block == 0 then
      if buf[0] == 0x88 then (buf[1..5] + uid[4..], 7)
      else if buf[0] != 0 then (buf[..4] + uid[4..], 4)
      else (uid, uidLen)
    else if block == 1 && uidLen == 7 then (uid[..4] + buf[..3] + uid[7..], uidLen)
    else (uid, uidLen)
  }

  function SessionUid(uid: seq<bv8>): (r: (seq<bv8>, nat))
    ensures |r.0| == 10
  {
    var n := if |uid| > 10 then 10 else |uid|;
    (uid[..n] + Zeros(10 - n), n)
  }

  /** What the reader takes over from a block besides its bytes. */
  function Note(d: Data, block: nat, buf: seq<bv8>): (r: Data)
    requires WellFormed(d) && block < 256 && |buf| == BlockSize
    ensures WellFormed(r) && r.kind == d.kind && r.keysA == d.keysA && r.keysB == d.keysB
  {
    var (uid, uidLen) := UidAfter(d.uid, d.uidLen, block, buf);
    var stored := d.(blocks := d.blocks[block := buf], blocksRead := d.blocksRead + {block}, uid := uid, uidLen := uidLen);
    if block != 0 then stored
    else if buf[0] == 0x88 then stored.(sak := buf[6], atqa := buf[7..9])
    else if buf[0] != 0 then stored.(sak := buf[5], atqa := buf[6..8])
    else stored
  }

  /** The UID seeds the cipher alike in the session, in the card, and, if the reader gets to see them, as
      blocks 0 and 1 spell it. */
  ghost predicate Seeds(m: Data, sessionUid: seq<bv8>, open: set<nat>)
    requires WellFormed(m)
  {
    var cuid := CuidOf(m.uid, m.uidLen);
    var (u0, l0) := SessionUid(sessionUid);
    var (u1, l1) := UidAfter(u0, l0, 0, m.blocks[0]);
    var (u2, l2) := UidAfter(u1, l1, 1, m.blocks[1]);
    CuidOf(u0, l0) == cuid && (0 in open ==> CuidOf(u2, l2) == cuid)
  }

  /** An open sector has the default key A; any other refuses the frame built with it. */
  predicate Verdict(m: Data, sector: nat, nr: seq<bv8>, open: set<nat>)
    requires WellFormed(m) && sector < 40 && |nr| == 4
  {
    FirstInRange(FourK, sector);
    if sector in open then KeyA(m, FirstBlock(sector)) == DefaultKey
    else !FrameAccepted(m, FirstBlock(sector), DefaultKey, CuidOf(m.uid, m.uidLen), nr)
  }

  predicate Nonces(nonces: seq<seq<bv8>>) { |nonces| == 40 && forall i :: 0 <= i < 40 ==> |nonces[i]| == 4 }

  /** A card the reader can read in exactly the open sectors. */
  ghost predicate Readable(m: Data, sessionUid: seq<bv8>, nonces: seq<seq<bv8>>, open: set<nat>)
    requires WellFormed(m) && Nonces(nonces)
  {
    && m.kind != Unknown && Seeds(m, sessionUid, open)
    && forall sector :: 0 <= sector < TotalSectors(m.kind) ==> Verdict(m, sector, nonces[sector], open)
  }

  /** Blocks 0 and 1 carry the UID the way the reader decodes it. */
  predicate EncodesUid(m: Data)
    requires WellFormed(m)
  {
    if m.uidLen == 7 then m.blocks[0][0] == 0x88 && m.blocks[0][1..5] == m.uid[..4] && m.blocks[1][..3] == m.uid[4..7]
    else m.uidLen == 4 && m.blocks[0][0] != 0x88 && m.blocks[0][..4] == m.uid[..4]
  }

  /** First blocks that carry the UID the session saw seed the cipher alike. */
  lemma SeedsWhenEncoded(m: Data, open: set<nat>)
    requires WellFormed(m) && EncodesUid(m)
    ensures Seeds(m, m.uid[..m.uidLen], open)
  {
    hide WordOf;
    var session := m.uid[..m.uidLen];
    var (u0, l0) := SessionUid(session);
    var (u1, l1) := UidAfter(u0, l0, 0, m.blocks[0]);
    var (u2, l2) := UidAfter(u1, l1, 1, m.blocks[1]);
    assert l0 == m.uidLen && u0[..l0] == session;
    if m.uidLen == 7 {
      assert u0[3..7] == m.uid[3..7];
      assert u1[..4] == m.uid[..4] && u2[..4] == m.uid[..4] && u2[4..7] == m.uid[4..7];
      assert u2[3..7] == m.uid[3..7];
    } else {
      assert u0[..4] == m.uid[..4] && u2[..4] == m.uid[..4];
    }
  }

  /** A card with the default key everywhere whose first blocks carry the UID is readable throughout. */
  lemma ReadableWhenEncoded(m: Data, nonces: seq<seq<bv8>>)
    requires WellFormed(m) && m.kind != Unknown && EncodesUid(m) && Nonces(nonces)
    requires forall block :: 0 <= block < TotalBlocks(m.kind) ==> KeyA(m, block) == DefaultKey
    ensures Readable(m, m.uid[..m.uidLen], nonces, Below(40))
  {
    SeedsWhenEncoded(m, Below(40));
    hide Seeds, KeyA, FirstBlock, Below;
    forall sector | 0 <= sector < TotalSectors(m.kind) ensures Verdict(m, sector, nonces[sector], Below(40)) {
      FirstInRange(m.kind, sector);
      BelowContains(40, sector);
    }
  }

  function Range(from: nat, n: nat): (s: seq<nat>)
    ensures |s| == n
  { seq(n, i => from + i) }

  lemma RangeNext(from: nat, n: nat)
    ensures Range(from, n) + [from + n] == Range(from, n + 1)
  {
  }

  ghost function Below(n: nat): set<nat> { set b | b in Range(0, n) }

  lemma BelowContains(n: nat, b: nat)
    requires b < n
    ensures b in Below(n)
  {
    assert Range(0, n)[b] == b;
  }

  /** The blocks below n that lie in open sectors, in order. */
  function Listed(n: nat, open: set<nat>): seq<nat>
    requires n <= 256
  { if n == 0 then [] else Listed(n - 1, open) + if SectorOf(n - 1) in open then [n - 1] else [] }

  ghost function Covered(n: nat, open: set<nat>): set<nat>
    requires n <= 256
  { set b | b in Listed(n, open) }

  lemma ListedNext(n: nat, open: set<nat>)
    requires n < 256
    ensures SectorOf(n) in open ==> Listed(n + 1, open) == Listed(n, open) + [n] && Covered(n + 1, open) == Covered(n, open) + {n}
    ensures SectorOf(n) !in open ==> Listed(n + 1, open) == Listed(n, open) && Covered(n + 1, open) == Covered(n, open)
  {
    hide SectorOf;
    assert Listed(n, open) + [] == Listed(n, open);
  }

  lemma {:induction false} ListedIs(n: nat, open: set<nat>, b: nat)
    requires n <= 256
    ensures b in Covered(n, open) <==> b < n && SectorOf(b) in open
    decreases n
  {
    if n > 0 {
      hide Covered;
      ListedNext(n - 1, open);
      ListedIs(n - 1, open, b);
    } else {
      assert Listed(0, open) == [];
    }
  }

  /** With every sector open that is every block. */
  lemma {:induction false} AllListed(n: nat, open: set<nat>)
    requires n <= 256 && forall b :: 0 <= b < n ==> SectorOf(b) in open
    ensures Listed(n, open) == Range(0, n)
    decreases n
  {
    if n > 0 {
      AllListed(n - 1, open);
      RangeNext(0, n - 1);
    }
  }

  /** The part of the card the reader has when it is about to read block n. */
  ghost predicate Fetched(d: Data, m: Data, sessionUid: seq<bv8>, n: nat, open: set<nat>)
    requires WellFormed(d) && WellFormed(m) && n <= 256
  {
    && d.kind == m.kind
    && d.blocksRead == Covered(n, open)
    && (forall b :: 0 <= b < n && SectorOf(b) in open ==> d.blocks[b] == m.blocks[b])
    && (d.uid, d.uidLen) == UidTrack(m, sessionUid, if 0 in open then n else 0)
    && (d.sak, d.atqa) == IdTrack(m.blocks[0], n > 0 && 0 in open)
  }

  /** SAK and ATQA as block 0 gives them, once it has been read. */
  ghost function IdTrack(first: seq<bv8>, seen: bool): (bv8, seq<bv8>)
    requires |first| == 16
  {
    if !seen || first[0] == 0 then (0, Zeros(2))
    else if first[0] == 0x88 then (first[6], [first[7], first[8]])
    else (first[5], [first[6], first[7]])
  }

  ghost function UidTrack(m: Data, sessionUid: seq<bv8>, n: nat): (r: (seq<bv8>, nat))
    requires WellFormed(m)
    ensures |r.0| == 10
  {
    var (u0, l0) := SessionUid(sessionUid);
    var (u1, l1) := UidAfter(u0, l0, 0, m.blocks[0]);
    if n == 0 then (u0, l0) else if n == 1 then (u1, l1) else UidAfter(u1, l1, 1, m.blocks[1])
  }

  lemma FetchOne(d: Data, m: Data, sessionUid: seq<bv8>, n: nat, open: set<nat>)
    requires WellFormed(d) && WellFormed(m) && n < 256 && SectorOf(n) in open
    requires Fetched(d, m, sessionUid, n, open)
    ensures Fetched(Note(d, n, m.blocks[n]), m, sessionUid, n + 1, open)
  {
    hide UidAfter, SessionUid, Covered, Listed;
    ListedNext(n, open);
    if n > 1 { LaterBlocksKeepUid(d.uid, d.uidLen, n, m.blocks[n]); }
    if n == 0 {
      var b := m.blocks[0];
      assert b[7..9] == [b[7], b[8]] && b[6..8] == [b[6], b[7]];
    } else {
      SectorZero();
    }
  }

  lemma SectorZero()
    ensures SectorOf(0) == 0
  {
  }

  /** A block outside the open sectors is passed over. */
  lemma SkipOne(d: Data, m: Data, sessionUid: seq<bv8>, n: nat, open: set<nat>)
    requires WellFormed(d) && WellFormed(m) && n < 256 && SectorOf(n) !in open
    requires Fetched(d, m, sessionUid, n, open)
    ensures Fetched(d, m, sessionUid, n + 1, open)
  {
    hide UidAfter, SessionUid, Covered, Listed;
    ListedNext(n, open);
    SectorZero();
  }

  lemma {:induction false} SkipMany(d: Data, m: Data, sessionUid: seq<bv8>, n: nat, count: nat, open: set<nat>)
    requires WellFormed(d) && WellFormed(m) && n + count <= 256 && forall b :: n <= b < n + count ==> SectorOf(b) !in open
    requires Fetched(d, m, sessionUid, n, open)
    ensures Fetched(d, m, sessionUid, n + count, open) && Listed(n + count, open) == Listed(n, open)
    decreases count
  {
    hide Fetched, Covered, SectorOf;
    if count > 0 {
      SkipMany(d, m, sessionUid, n, count - 1, open);
      SkipOne(d, m, sessionUid, n + count - 1, open);
      ListedNext(n + count - 1, open);
    }
  }

  lemma LaterBlocksKeepUid(uid: seq<bv8>, uidLen: nat, block: nat, buf: seq<bv8>)
    requires |uid| == 10 && |buf| == BlockSize && block > 1
    ensures UidAfter(uid, uidLen, block, buf) == (uid, uidLen)
  {
  }

  /** The block loop of classic_poller_read, once the sector is authenticated. */
  method ReadBlocks(card: Listener, cipher: Cipher, t: CardType, sector: nat, start: Data, before: seq<nat>,
                    ghost sessionUid: seq<bv8>, ghost open: set<nat>)
    returns (ok: bool, out: Data, asked: seq<nat>)
    requires card.Valid() && card.initialized && cipher != card.cipher
    requires sector < TotalSectors(t) && WellFormed(start) && start.kind == t
    modifies card, card.cipher, cipher
    ensures card.Valid() && card.initialized && card.model == old(card.model)
    ensures WellFormed(out) && out.kind == t
    ensures FirstBlock(sector) + BlocksIn(sector) <= 256
    ensures sector in open && old(card.complete) && old(card.authBlock) == FirstBlock(sector) && old(cipher.State() == card.cipher.State()) &&
            Fetched(start, card.model, sessionUid, FirstBlock(sector), open) && before == Listed(FirstBlock(sector), open) ==>
              ok && asked == Listed(FirstBlock(sector) + BlocksIn(sector), open) &&
              Fetched(out, card.model, sessionUid, FirstBlock(sector) + BlocksIn(sector), open) &&
              out.keysA == start.keysA && out.keysB == start.keysB + {sector}
  {
    hide UidAfter, SessionUid, KeyA, CuidOf, Note, FirstBlock, SectorOf, Fetched, WellFormed, ValidCard;
    hide FrameAccepted, Listed, Covered, IsTrailer, BlockValid;
    ghost var m := card.model;
    var first := FirstBlock(sector);
    FirstInRange(t, sector);
    CardModel(card.Value());
    ghost var good := sector in open && card.complete && card.authBlock == first && cipher.State() == card.cipher.State()
                      && Fetched(start, m, sessionUid, first, open) && before == Listed(first, open);
    out, asked := start, before;
    for i := 0 to BlocksIn(sector)
      invariant card.Valid() && card.initialized && card.model == m && WellFormed(out)
      invariant out.kind == t && out.keysA == start.keysA
      invariant out.keysB == start.keysB + (if i == BlocksIn(sector) then {sector} else {})
      invariant good ==> Fetched(out, m, sessionUid, first + i, open) && asked == Listed(first + i, open)
      invariant good ==> card.complete && card.authBlock == first && cipher.State() == card.cipher.State()
    {
      var block := first + i;
      if block >= TotalBlocks(t) {
        break;
      }
      SameSector(t, sector, i);
      LastIsTrailer(t, sector, i);
      if good { FetchedBlock(out, m, sessionUid, block, open); }
      var read, buf := ReadBlock(card, cipher, block);
      asked := asked + [block];
      ListedNext(block, open);
      if !read {
        return false, out, asked;
      }
      if good { FetchOne(out, m, sessionUid, block, open); }
      out := Note(out, block, buf);
      if IsTrailer(block) {
        KeysAside(out, m, sessionUid, block + 1, out.keysA, out.keysB + {sector}, open);
        out := out.(keysB := out.keysB + {sector});
      }
    }
    ok := true;
  }

  /** The body of classic_poller_read's sector loop; asked lists the blocks asked for so far.  A sector
      that does not authenticate is passed over, a block that does not read ends the whole read. */
  method ReadSector(card: Listener, cipher: Cipher, t: CardType, sector: nat, start: Data, nr: seq<bv8>, before: seq<nat>,
                    ghost sessionUid: seq<bv8>, ghost open: set<nat>)
    returns (ok: bool, out: Data, asked: seq<nat>)
    requires card.Valid() && card.initialized && cipher != card.cipher
    requires sector < TotalSectors(t) && WellFormed(start) && start.kind == t && |nr| == 4
    modifies card, card.cipher, cipher
    ensures card.Valid() && card.initialized && card.model == old(card.model)
    ensures WellFormed(out) && out.kind == t
    ensures FirstBlock(sector) + BlocksIn(sector) <= 256
    ensures Seeds(card.model, sessionUid, open) && Verdict(card.model, sector, nr, open) &&
            Fetched(start, card.model, sessionUid, FirstBlock(sector), open) && before == Listed(FirstBlock(sector), open) ==>
              ok && asked == Listed(FirstBlock(sector) + BlocksIn(sector), open) &&
              Fetched(out, card.model, sessionUid, FirstBlock(sector) + BlocksIn(sector), open) &&
              out.keysA == start.keysA + (if sector in open then {sector} else {}) &&
              out.keysB == start.keysB + (if sector in open then {sector} else {})
  {
    hide UidAfter, SessionUid, KeyA, CuidOf, Note, FirstBlock, SectorOf, Fetched, WellFormed, ValidCard;
    hide Seeds, Verdict, FrameAccepted, Listed, Covered, IsTrailer, BlockValid;
    ghost var m := card.model;
    var first := FirstBlock(sector);
    FirstInRange(t, sector);
    CardModel(card.Value());
    ghost var good := Seeds(m, sessionUid, open) && Verdict(m, sector, nr, open) && Fetched(start, m, sessionUid, first, open)
                      && before == Listed(first, open);
    out, asked := start, before;
    cipher.Reset();
    if good { SectorVerdict(out, m, sessionUid, sector, nr, open); }
    UidLength(out);
    var authed := Auth(card, cipher, out.uid, out.uidLen, first, DefaultKey, nr);
    if !authed {
      if good { PassedOver(out, m, sessionUid, t, sector, open); }
      return true, out, asked;
    }
    KeysAside(out, m, sessionUid, first, out.keysA + {sector}, out.keysB, open);
    out := out.(keysA := out.keysA + {sector});
    ok, out, asked := ReadBlocks(card, cipher, t, sector, out, before, sessionUid, open);
  }

  /** classic_poller_read.  On a card whose open sectors have the default key and whose others refuse it,
      the reader asks for exactly the blocks of the open sectors, once and in order, and ends with those
      blocks and with success if sector 0 is among them. */
  method ReadCard(card: Listener, sessionUid: seq<bv8>, nonces: seq<seq<bv8>>, ghost open: set<nat>)
    returns (ok: bool, out: Data, asked: seq<nat>)
    requires card.Valid() && card.initialized && Nonces(nonces)
    modifies card, card.cipher
    ensures card.Valid() && card.model == old(card.model) && WellFormed(out)
    ensures Readable(card.model, sessionUid, nonces, open) ==>
              var total := TotalBlocks(card.model.kind);
              && (ok <==> 0 in open)
              && out.kind == card.model.kind
              && asked == Listed(total, open)
              && (forall b :: b in out.blocksRead <==> 0 <= b < total && SectorOf(b) in open)
              && (forall b :: b in out.blocksRead ==> out.blocks[b] == card.model.blocks[b])
              && out.keysA == out.keysB && (forall s :: s in out.keysA <==> 0 <= s < TotalSectors(card.model.kind) && s in open)
    ensures Readable(card.model, sessionUid, nonces, open) && 0 in open ==> Identified(out, card.model.blocks[0], card.model.blocks[1], sessionUid)
    ensures Readable(card.model, sessionUid, nonces, Below(40)) && open == Below(40) ==>
              ok && asked == Range(0, TotalBlocks(card.model.kind))
  {
    hide UidAfter, SessionUid, KeyA, CuidOf, UidTrack, Readable, FirstBlock, Below, Seeds, Verdict, FrameAccepted;
    hide SectorOf, Listed, Covered, Identified, Fetched, IdTrack;
    ghost var m := card.model;
    ghost var good := Readable(m, sessionUid, nonces, open);
    if good { ReadableParts(m, sessionUid, nonces, open); }
    asked := [];
    var (uid, uidLen) := SessionUid(sessionUid);
    out := ResetData().(uid := uid, uidLen := uidLen);
    var t := DetectType(card);
    out := out.(kind := t);
    if good { StartFetched(out, m, sessionUid, open); }
    var cipher := new Cipher();
    SectorsTile(t, 0, 0);
    ListedNone(open);
    for sector := 0 to TotalSectors(t)
      invariant card.Valid() && card.initialized && card.model == m && WellFormed(out) && cipher != card.cipher
      invariant out.kind == t && FirstBlock(sector) <= 256
      invariant good ==> Fetched(out, m, sessionUid, FirstBlock(sector), open) && asked == Listed(FirstBlock(sector), open)
      invariant good ==> out.keysA == out.keysB && forall s :: s in out.keysA <==> 0 <= s < sector && s in open
    {
      SectorsTile(t, sector, 0);
      var more;
      more, out, asked := ReadSector(card, cipher, t, sector, out, nonces[sector], asked, sessionUid, open);
      if !more {
        return false, out, asked;
      }
    }
    ok := 0 in out.blocksRead;
    if good {
      AllFetched(out, m, sessionUid, t, open);
      if 0 in open { FetchedIdentity(out, m, sessionUid, TotalBlocks(t), open); }
    }
  }

  /** What the reader reports about the card besides its blocks: a first byte 88 announces a UID of seven
      bytes over two blocks, any other but zero one of four; zero leaves what the session knew, but for
      the last three of seven bytes. */
  ghost predicate Identified(d: Data, b0: seq<bv8>, b1: seq<bv8>, sessionUid: seq<bv8>)
    requires |b0| == |b1| == 16 && |d.uid| == 10
  {
    if b0[0] == 0x88 then d.uidLen == 7 && d.uid[..4] == b0[1..5] && d.uid[4..7] == b1[..3] && d.sak == b0[6] && d.atqa == [b0[7], b0[8]]
    else if b0[0] != 0 then d.uidLen == 4 && d.uid[..4] == b0[..4] && d.sak == b0[5] && d.atqa == [b0[6], b0[7]]
    else && d.uidLen == (if |sessionUid| < 10 then |sessionUid| else 10) && d.sak == 0 && d.atqa == [0, 0]
         && (forall i :: 0 <= i < d.uidLen && !(d.uidLen == 7 && i >= 4) ==> d.uid[i] == sessionUid[i])
         && (d.uidLen == 7 ==> d.uid[4..7] == b1[..3])
  }

  lemma FetchedIdentity(d: Data, m: Data, sessionUid: seq<bv8>, n: nat, open: set<nat>)
    requires WellFormed(d) && WellFormed(m) && 2 <= n <= 256 && 0 in open && Fetched(d, m, sessionUid, n, open)
    ensures Identified(d, m.blocks[0], m.blocks[1], sessionUid)
  {
    hide Covered, Listed, SectorOf;
    var (u0, l0) := SessionUid(sessionUid);
    var (u1, l1) := UidAfter(u0, l0, 0, m.blocks[0]);
    assert (d.uid, d.uidLen) == UidAfter(u1, l1, 1, m.blocks[1]);
  }

  lemma ListedNone(open: set<nat>)
    ensures Listed(0, open) == []
  {
  }

  lemma ReadableParts(m: Data, sessionUid: seq<bv8>, nonces: seq<seq<bv8>>, open: set<nat>)
    requires WellFormed(m) && Nonces(nonces) && Readable(m, sessionUid, nonces, open)
    ensures m.kind != Unknown && Seeds(m, sessionUid, open)
    ensures forall sector :: 0 <= sector < TotalSectors(m.kind) ==> Verdict(m, sector, nonces[sector], open)
  {
  }

  /** What the last state of the loop says, block by block. */
  lemma AllFetched(d: Data, m: Data, sessionUid: seq<bv8>, t: CardType, open: set<nat>)
    requires WellFormed(d) && WellFormed(m) && d.kind == m.kind == t != Unknown
    requires Fetched(d, m, sessionUid, TotalBlocks(t), open)
    ensures forall b :: b in d.blocksRead <==> 0 <= b < TotalBlocks(t) && SectorOf(b) in open
    ensures forall b :: b in d.blocksRead ==> d.blocks[b] == m.blocks[b]
    ensures 0 in d.blocksRead <==> 0 in open
    ensures open == Below(40) ==> Listed(TotalBlocks(t), open) == Range(0, TotalBlocks(t)) && 0 in open
  {
    hide UidTrack, Listed, Covered, Below, SectorOf;
    forall b ensures b in d.blocksRead <==> 0 <= b < TotalBlocks(t) && SectorOf(b) in open {
      if b >= 0 { ListedIs(TotalBlocks(t), open, b); } else { CoveredNat(TotalBlocks(t), open, b); }
    }
    SectorsBounded(0);
    if open == Below(40) {
      forall b | 0 <= b < TotalBlocks(t) ensures SectorOf(b) in open {
        SectorsBounded(b);
        BelowContains(40, SectorOf(b));
      }
      AllListed(TotalBlocks(t), open);
      BelowContains(40, 0);
    }
  }

  lemma StartFetched(d: Data, m: Data, sessionUid: seq<bv8>, open: set<nat>)
    requires WellFormed(d) && WellFormed(m)
    requires (d.uid, d.uidLen) == SessionUid(sessionUid) && d.blocksRead == {} && d.sak == 0 && d.atqa == Zeros(2)
    requires d.kind == m.kind
    ensures Fetched(d, m, sessionUid, 0, open)
  {
    assert Listed(0, open) == [];
  }

  /** At the start of a sector the reader seeds its cipher as the card does, so the sector's verdict is
      that of the frame. */
  lemma SectorVerdict(d: Data, m: Data, sessionUid: seq<bv8>, sector: nat, nr: seq<bv8>, open: set<nat>)
    requires WellFormed(d) && WellFormed(m) && sector < TotalSectors(d.kind) && |nr| == 4 && FirstBlock(sector) <= 255
    requires Seeds(m, sessionUid, open) && Verdict(m, sector, nr, open) && Fetched(d, m, sessionUid, FirstBlock(sector), open)
    ensures CuidOf(d.uid, d.uidLen) == CuidOf(m.uid, m.uidLen) && BlockValid(m, FirstBlock(sector))
    ensures sector in open ==> KeyA(m, FirstBlock(sector)) == DefaultKey
    ensures sector !in open ==> !FrameAccepted(m, FirstBlock(sector), DefaultKey, CuidOf(d.uid, d.uidLen), nr)
  {
    hide UidAfter, SessionUid, KeyA, CuidOf, FrameAccepted, Covered, SectorOf;
    FirstInRange(d.kind, sector);
  }

  lemma PassedOver(d: Data, m: Data, sessionUid: seq<bv8>, t: CardType, sector: nat, open: set<nat>)
    requires WellFormed(d) && WellFormed(m) && sector < TotalSectors(t) && sector !in open && FirstBlock(sector) + BlocksIn(sector) <= 256
    requires Fetched(d, m, sessionUid, FirstBlock(sector), open)
    ensures Fetched(d, m, sessionUid, FirstBlock(sector) + BlocksIn(sector), open)
    ensures Listed(FirstBlock(sector) + BlocksIn(sector), open) == Listed(FirstBlock(sector), open)
  {
    hide Fetched;
    forall b | FirstBlock(sector) <= b < FirstBlock(sector) + BlocksIn(sector) ensures SectorOf(b) !in open {
      SameSector(t, sector, b - FirstBlock(sector));
    }
    SkipMany(d, m, sessionUid, FirstBlock(sector), BlocksIn(sector), open);
  }

  lemma FetchedBlock(d: Data, m: Data, sessionUid: seq<bv8>, block: nat, open: set<nat>)
    requires WellFormed(d) && WellFormed(m) && block < TotalBlocks(d.kind) <= 256 && Fetched(d, m, sessionUid, block, open)
    ensures BlockValid(m, block)
  {
    hide UidTrack, Covered, SectorOf;
  }

  lemma FirstInRange(t: CardType, sector: nat)
    requires sector < TotalSectors(t)
    ensures FirstBlock(sector) + BlocksIn(sector) <= TotalBlocks(t) <= 256 && FirstBlock(sector) != 1
    ensures BlocksIn(sector) >= 1
  {
  }

  lemma SameSector(t: CardType, sector: nat, i: nat)
    requires sector < TotalSectors(t) && i < BlocksIn(sector)
    ensures SectorOf(FirstBlock(sector) + i) == SectorOf(FirstBlock(sector)) == sector
  {
    var block := FirstBlock(sector) + i;
    if sector < 32 {
      assert block / 4 == sector;
    } else {
      assert block / 16 == sector - 24;
    }
  }

  lemma LastIsTrailer(t: CardType, sector: nat, i: nat)
    requires sector < TotalSectors(t) && i < BlocksIn(sector) && FirstBlock(sector) + i < 256
    ensures IsTrailer(FirstBlock(sector) + i) <==> i + 1 == BlocksIn(sector)
  {
  }

  lemma SectorsBounded(block: nat)
    requires block < 256
    ensures SectorOf(block) < 40 && SectorOf(0) == 0
  {
  }

  lemma CoveredNat(n: nat, open: set<nat>, b: int)
    requires n <= 256 && b < 0
    ensures forall c :: c in Covered(n, open) ==> c != b
  {
  }

  lemma CardModel(c: Card)
    requires ValidCard(c)
    ensures WellFormed(c.model)
  {
  }

  /** Noting which keys worked does not touch what has been fetched. */
  lemma KeysAside(d: Data, m: Data, sessionUid: seq<bv8>, n: nat, keysA: set<nat>, keysB: set<nat>, open: set<nat>)
    requires WellFormed(d) && WellFormed(m) && n <= 256
    ensures WellFormed(d.(keysA := keysA, keysB := keysB))
    ensures Fetched(d, m, sessionUid, n, open) ==> Fetched(d.(keysA := keysA, keysB := keysB), m, sessionUid, n, open)
  {
    hide UidTrack;
  }

  lemma UidLength(d: Data)
    requires WellFormed(d)
    ensures |d.uid| == 10
  {
  }
}
