/** MIFARE Ultralight and NTAG: the Type 2 listener (ultralight_listener_t2.c) and the reader
    (ultralight_poller.c, ultralight_poller_i.c).

    Three results.  Reader and card authenticate each other for every shared key and all random
    numbers.  A protected card tells nothing about its protected pages until it hears the
    password, in every run of commands, and everything afterwards.  And the pages the reader
    reports are the card's, with the exact number of pages it gets through to. */
module Ultralight {
  import opened Words
  import opened Octets
  import opened UltralightImage
  import TripleDes

  // ---------- the card ----------

  datatype Auth = Idle | Waiting | Success

  /** The static variables of the listener. */
  datatype Card = Card(model: Data, cfg: Config, auth: Auth, rndB: seq<bv8>, encB: seq<bv8>)

  predicate WellFormedCard(c: Card) {
    WellFormed(c.model) && |c.cfg.pwd| == 4 && |c.cfg.pack| == 2 && |c.rndB| == 8 && |c.encB| == 8
  }

  /** What deserialisation leaves: settings read from the pages, access open only if nothing is
      protected. */
  predicate Loaded(c: Card) {
    WellFormedCard(c) && c.model.read == c.model.total && c.cfg == ParseConfig(c.model) &&
    c.auth == if HasPassword(c.model.kind) && c.cfg.valid && (!ProtectionOn(c.cfg) || !c.cfg.prot) then Success else Idle
  }

  predicate Blocked(c: Card, page: nat) {
    page < c.model.total && HasPassword(c.model.kind) && c.auth != Success && NeedsAuth(c.cfg, page)
  }

  /** A page as it is read: zero past the end. */
  function Slot(d: Data, page: nat): Page
    requires WellFormed(d)
  { if page < d.total then d.pages[page] else ZeroPage }

  function FourPages(d: Data, start: nat): (r: seq<bv8>)
    requires WellFormed(d)
    ensures |r| == 16
  { Slot(d, start) + Slot(d, start + 1) + Slot(d, start + 2) + Slot(d, start + 3) }

  predicate AnyBlocked(c: Card, start: nat) {
    Blocked(c, start) || Blocked(c, start + 1) || Blocked(c, start + 2) || Blocked(c, start + 3)
  }

  function ReadReply(c: Card, start: nat): (rx: seq<bv8>)
    requires WellFormedCard(c)
  { if AnyBlocked(c, start) then [0] else FourPages(c.model, start) }

  /** The sixteen bytes from page 44 on. */
  function Key(d: Data): (k: seq<bv8>)
    requires WellFormed(d)
    ensures |k| == 16
  { d.pages[44][..] + d.pages[45][..] + d.pages[46][..] + d.pages[47][..] }

  function Rotated(s: seq<bv8>): (r: seq<bv8>)
    requires |s| == 8
    ensures |r| == 8
  { s[1..] + [s[0]] }

  datatype Turn = Turn(card: Card, rx: seq<bv8>)

  function AuthStart(c: Card, rnd: seq<bv8>): (t: Turn)
    requires WellFormedCard(c) && |rnd| == 8
    ensures WellFormedCard(t.card) && t.card.model == c.model && t.card.cfg == c.cfg
  {
    if !c.model.kind.UltralightC? then Turn(c, [])
    else
      var encB := TripleDes.CbcEncrypted(Key(c.model), Zeros(8), rnd);
      Turn(c.(rndB := rnd, encB := encB, auth := Waiting), [0xAF] + encB)
  }

  function AuthPlain(c: Card, tx: seq<bv8>): (plain: seq<bv8>)
    requires WellFormedCard(c) && |tx| == 17
    ensures |plain| == 16
  { TripleDes.CbcDecrypted(Key(c.model), c.encB, tx[1..]) }

  predicate AuthAccepts(c: Card, tx: seq<bv8>)
    requires WellFormedCard(c)
  { |tx| == 17 && AuthPlain(c, tx)[8..] == Rotated(c.rndB) }

  function AuthContinue(c: Card, tx: seq<bv8>): (t: Turn)
    requires WellFormedCard(c)
    ensures WellFormedCard(t.card) && t.card.model == c.model && t.card.cfg == c.cfg
  {
    if !c.model.kind.UltralightC? || |tx| != 17 then Turn(c, [])
    else if !AuthAccepts(c, tx) then Turn(c.(auth := Idle), [])
    else
      var a := Rotated(AuthPlain(c, tx)[..8]);
      Turn(c.(auth := Success), [0x00] + TripleDes.CbcEncrypted(Key(c.model), tx[9..], a))
  }

  predicate GivesPassword(c: Card, tx: seq<bv8>) {
    |tx| >= 5 && tx[0] == 0x1B && tx[1..5] == c.cfg.pwd
  }

  /** One command of ultralight_listener_t2_on_tag_cmd; no reply is the empty one. */
  function TagCmd(c: Card, tx: seq<bv8>, rnd: seq<bv8>): (t: Turn)
    requires WellFormedCard(c) && |rnd| == 8
    ensures WellFormedCard(t.card) && t.card.model == c.model && t.card.cfg == c.cfg
  {
    if tx == [] then Turn(c, [])
    else if tx[0] == 0x30 then Turn(c, if |tx| < 2 then [] else ReadReply(c, Num(tx[1])))
    else if tx[0] == 0x60 then Turn(c, c.model.version)
    else if tx[0] == 0x3C then Turn(c, c.model.signature)
    else if tx[0] == 0x39 then
      Turn(c, if |tx| < 2 || Num(tx[1]) >= |c.model.counters| then [] else c.model.counters[Num(tx[1])])
    else if tx[0] == 0x3E then
      Turn(c, if |tx| < 2 || Num(tx[1]) >= |c.model.tearing| then [] else [c.model.tearing[Num(tx[1])]])
    else if tx[0] == 0x1B then
      if HasPassword(c.model.kind) && c.cfg.valid && GivesPassword(c, tx) then Turn(c.(auth := Success), c.cfg.pack)
      else Turn(c, [])
    else if tx[0] == 0x1A then AuthStart(c, rnd)
    else if tx[0] == 0xAF && c.auth == Waiting then AuthContinue(c, tx)
    else Turn(c, [])
  }

  // ---------- what is answered, in terms of the stored image ----------

  /** The settings of a password tag are these bytes of the blob it was loaded from. */
  lemma SettingsInBlob(d: Data, blob: seq<bv8>)
    requires WellFormed(d) && Deserialize(d, blob).ok && HasPassword(Deserialize(d, blob).data.kind)
    ensures var n, cfg := Deserialize(d, blob).data.total, ParseConfig(Deserialize(d, blob).data);
            && n >= 45 && |blob| >= 4 + 4 * n && cfg.valid
            && cfg.auth0 == Num(blob[4 * n - 9]) && cfg.prot == (blob[4 * n - 8] & 0x80 != 0)
            && cfg.authlim == Num(blob[4 * n - 8] & 0x07)
            && cfg.pwd == blob[4 * n - 4..4 * n] && cfg.pack == blob[4 * n..4 * n + 2]
  {
    hide Deserialize, KindOf, Num, PagesAt;
    var n := Deserialize(d, blob).data.total;
    LoadedPages(d, blob);
    LoadedWhole(d, blob);
    PasswordSizes(n);
    LoadedPage(d, blob, n - 4);
    LoadedPage(d, blob, n - 3);
    LoadedPage(d, blob, n - 2);
    LoadedPage(d, blob, n - 1);
    var m := Deserialize(d, blob).data;
    assert m.pages[n - 4] == blob[4 * n - 12..4 * n - 8] && m.pages[n - 3] == blob[4 * n - 8..4 * n - 4];
    assert m.pages[n - 2] == blob[4 * n - 4..4 * n] && m.pages[n - 1] == blob[4 * n..4 * n + 4];
    assert blob[4 * n..4 * n + 4][..2] == blob[4 * n..4 * n + 2];
  }

  lemma PasswordSizes(total: nat)
    requires HasPassword(KindOf(total))
    ensures total == 45 || total == 135 || total == 231
  {
  }

  /** A password tag is open from the start exactly when AUTH0 is FF or PROT is not set. */
  lemma OpenFromBlob(d: Data, blob: seq<bv8>, c: Card)
    requires WellFormed(d) && Deserialize(d, blob).ok && HasPassword(Deserialize(d, blob).data.kind)
    requires Loaded(c) && c.model == Deserialize(d, blob).data
    ensures var n := c.model.total;
            n >= 45 && |blob| >= 4 + 4 * n && (c.auth == Success <==> blob[4 * n - 9] == 0xFF || blob[4 * n - 8] & 0x80 == 0)
  {
    hide Deserialize, ParseConfig;
    SettingsInBlob(d, blob);
    NumFull(blob[4 * c.model.total - 9]);
  }

  lemma NumFull(b: bv8)
    ensures Num(b) == 255 <==> b == 0xFF
  {
    if Num(b) == 255 { NumInjective(b, 0xFF); }
  }

  /** PWD_AUTH is answered exactly when it gives the stored password, and then with the stored PACK. */
  lemma PasswordAnswered(d: Data, blob: seq<bv8>, c: Card, pwd: seq<bv8>, rnd: seq<bv8>)
    requires WellFormed(d) && Deserialize(d, blob).ok && HasPassword(Deserialize(d, blob).data.kind)
    requires Loaded(c) && c.model == Deserialize(d, blob).data && |pwd| == 4 && |rnd| == 8
    ensures var n, t := c.model.total, TagCmd(c, [0x1B] + pwd, rnd);
            && n >= 45 && |blob| >= 4 + 4 * n
            && t == if pwd == blob[4 * n - 4..4 * n] then Turn(c.(auth := Success), blob[4 * n..4 * n + 2]) else Turn(c, [])
  {
    hide Deserialize, ParseConfig, ReadReply, AuthStart, AuthContinue;
    SettingsInBlob(d, blob);
    assert ([0x1B] + pwd)[1..5] == pwd;
  }

  /** READ gives four pages, or one zero byte if any of them is protected and the password was not heard. */
  lemma ReadAnswered(c: Card, page: bv8, rnd: seq<bv8>)
    requires WellFormedCard(c) && |rnd| == 8
    ensures TagCmd(c, [0x30, page], rnd) == Turn(c, if AnyBlocked(c, Num(page)) then [0] else FourPages(c.model, Num(page)))
  {
    hide AuthStart, AuthContinue, AnyBlocked, Num, FourPages;
  }

  /** The four pages are sixteen bytes of the blob, zero past the last page. */
  lemma PagesInBlob(d: Data, blob: seq<bv8>, start: nat, i: nat)
    requires WellFormed(d) && Deserialize(d, blob).ok && i < 16
    ensures var m, at := Deserialize(d, blob).data, 4 + 4 * start + i;
            |blob| >= 4 + 4 * m.total && FourPages(m, start)[i] == if at < 4 + 4 * m.total then blob[at] else 0
  {
    hide Deserialize, Num, PagesAt, KindOf, FourPages;
    LoadedPages(d, blob);
    var m, p := Deserialize(d, blob).data, start + i / 4;
    PageByte(m, start, i);
    if p < m.total {
      LoadedPage(d, blob, p);
      assert blob[4 + 4 * p..8 + 4 * p][i % 4] == blob[4 + 4 * p + i % 4];
    }
  }

  lemma PageByte(d: Data, start: nat, i: nat)
    requires WellFormed(d) && i < 16
    ensures FourPages(d, start)[i] == Slot(d, start + i / 4)[i % 4]
  {
  }

  /** The other queries are answered from the version, signature, counters and tearing flags saved. */
  lemma QueriesAnswered(d: Data, c: Card, i: bv8, rnd: seq<bv8>)
    requires Proper(d) && WellFormedCard(c) && c.model == Restored(d) && |rnd| == 8
    ensures TagCmd(c, [0x60], rnd) == Turn(c, d.version) && TagCmd(c, [0x3C, 0x00], rnd) == Turn(c, d.signature)
    ensures TagCmd(c, [0x39, i], rnd) == Turn(c, if Num(i) < |d.counters| then d.counters[Num(i)] else [])
    ensures TagCmd(c, [0x3E, i], rnd) == Turn(c, if Num(i) < |d.tearing| then [d.tearing[Num(i)]] else [])
  {
    hide ReadReply, AuthStart, AuthContinue, Num, KindOf;
  }

  /** A second pass of another length, or without a first, and any other command change nothing and get no
      answer. */
  lemma OthersIgnored(c: Card, tx: seq<bv8>, rnd: seq<bv8>)
    requires WellFormedCard(c) && |rnd| == 8
    requires tx == [] || (tx[0] == 0xAF && (c.auth != Waiting || |tx| != 17))
             || tx[0] !in {0x30, 0x60, 0x3C, 0x39, 0x3E, 0x1B, 0x1A, 0xAF}
    ensures TagCmd(c, tx, rnd) == Turn(c, [])
  {
    hide ReadReply, AuthStart;
  }

  lemma RotatedBytes(s: seq<bv8>, i: nat)
    requires |s| == 8 && i < 8
    ensures Rotated(s)[i] == s[if i < 7 then i + 1 else 0]
  {
  }

  // ---------- protection over whole runs ----------

  /** A command and the random number the card would draw for it. */
  datatype Command = Command(tx: seq<bv8>, rnd: seq<bv8>)

  predicate WellFormedRun(cmds: seq<Command>) { forall i :: 0 <= i < |cmds| ==> |cmds[i].rnd| == 8 }

  function Run(c: Card, cmds: seq<Command>): (r: Card)
    requires WellFormedCard(c) && WellFormedRun(cmds)
    ensures WellFormedCard(r) && r.model == c.model && r.cfg == c.cfg
    decreases |cmds|
  { if cmds == [] then c else Run(TagCmd(c, cmds[0].tx, cmds[0].rnd).card, cmds[1..]) }

  function Replies(c: Card, cmds: seq<Command>): (r: seq<seq<bv8>>)
    requires WellFormedCard(c) && WellFormedRun(cmds)
    ensures |r| == |cmds|
    decreases |cmds|
  {
    if cmds == [] then []
    else var t := TagCmd(c, cmds[0].tx, cmds[0].rnd); [t.rx] + Replies(t.card, cmds[1..])
  }

  predicate Protected(c: Card) {
    WellFormedCard(c) && HasPassword(c.model.kind) && ProtectionOn(c.cfg) && c.cfg.prot && c.auth == Idle
  }

  predicate NoPassword(c: Card, cmds: seq<Command>) {
    forall i :: 0 <= i < |cmds| ==> !GivesPassword(c, cmds[i].tx)
  }

  /** A loaded image whose settings protect something is protected. */
  lemma LoadedProtected(c: Card)
    requires Loaded(c) && ProtectionOn(c.cfg) && c.cfg.prot
    ensures Protected(c)
  {
  }

  /** On a password tag only the password changes anything. */
  lemma StepChanges(c: Card, cmd: Command)
    requires WellFormedCard(c) && HasPassword(c.model.kind) && c.cfg.valid && c.auth != Waiting && |cmd.rnd| == 8
    ensures TagCmd(c, cmd.tx, cmd.rnd).card == if GivesPassword(c, cmd.tx) then c.(auth := Success) else c
  {
    hide TripleDes.CbcEncrypted, TripleDes.CbcDecrypted;
  }

  /** Access is open after a run exactly when the password was given in it. */
  lemma {:induction false} OpenIff(c: Card, cmds: seq<Command>)
    requires Protected(c) && WellFormedRun(cmds)
    ensures Run(c, cmds) == if NoPassword(c, cmds) then c else c.(auth := Success)
    decreases |cmds|
  {
    hide TagCmd, GivesPassword;
    if cmds != [] {
      StepChanges(c, cmds[0]);
      if GivesPassword(c, cmds[0].tx) { StaysOpen(c.(auth := Success), cmds[1..]); }
      else {
        OpenIff(c, cmds[1..]);
        assert NoPassword(c, cmds) == NoPassword(c, cmds[1..]) by {
          assert forall i :: 0 <= i < |cmds[1..]| ==> cmds[1..][i] == cmds[i + 1];
          assert forall i :: 0 < i < |cmds| ==> cmds[i] == cmds[1..][i - 1];
        }
      }
    }
  }

  lemma {:induction false} StaysOpen(c: Card, cmds: seq<Command>)
    requires WellFormedCard(c) && HasPassword(c.model.kind) && c.cfg.valid && c.auth == Success && WellFormedRun(cmds)
    ensures Run(c, cmds) == c
    decreases |cmds|
  {
    hide TagCmd, GivesPassword;
    if cmds != [] {
      StepChanges(c, cmds[0]);
      StaysOpen(c, cmds[1..]);
    }
  }

  /** What a READ answers after any run: the pages if the password was given or none of the four
      is protected, otherwise one zero byte. */
  lemma ReadAfterRun(c: Card, cmds: seq<Command>, page: bv8, rnd: seq<bv8>)
    requires Protected(c) && WellFormedRun(cmds) && |rnd| == 8
    ensures TagCmd(Run(c, cmds), [0x30, page], rnd).rx ==
            if !NoPassword(c, cmds) || Num(page) + 3 < c.cfg.auth0 || c.model.total <= c.cfg.auth0 || c.model.total <= Num(page)
            then FourPages(c.model, Num(page)) else [0]
  {
    hide TripleDes.CbcEncrypted, TripleDes.CbcDecrypted, FourPages, NoPassword;
    OpenIff(c, cmds);
  }

  /** The two cards differ at most in protected pages, the password and its acknowledgement. */
  predicate AlikeOutside(a: Card, b: Card) {
    Protected(a) && Protected(b) && a.cfg.auth0 == b.cfg.auth0 && a.rndB == b.rndB && a.encB == b.encB &&
    a.model == b.model.(pages := a.model.pages) &&
    forall p :: 0 <= p < a.cfg.auth0 && p < MaxPages ==> a.model.pages[p] == b.model.pages[p]
  }

  lemma AlikeSlot(a: Card, b: Card, page: nat)
    requires AlikeOutside(a, b)
    ensures Blocked(a, page) == Blocked(b, page)
    ensures !Blocked(a, page) ==> Slot(a.model, page) == Slot(b.model, page)
  {
  }

  lemma AlikeRead(a: Card, b: Card, start: nat)
    requires AlikeOutside(a, b)
    ensures ReadReply(a, start) == ReadReply(b, start)
  {
    AlikeProtected(a, b);
    hide Blocked, Slot, AlikeOutside, Protected;
    AlikeSlot(a, b, start); AlikeSlot(a, b, start + 1); AlikeSlot(a, b, start + 2); AlikeSlot(a, b, start + 3);
  }

  lemma AlikeStep(a: Card, b: Card, cmd: Command)
    requires AlikeOutside(a, b) && |cmd.rnd| == 8
    requires !GivesPassword(a, cmd.tx) && !GivesPassword(b, cmd.tx)
    ensures TagCmd(a, cmd.tx, cmd.rnd).rx == TagCmd(b, cmd.tx, cmd.rnd).rx
  {
    hide TripleDes.CbcEncrypted, TripleDes.CbcDecrypted, GivesPassword, ReadReply;
    if |cmd.tx| >= 2 { AlikeRead(a, b, Num(cmd.tx[1])); }
  }

  /** Protected pages are invisible: whatever is asked, two such cards answer alike until one of
      them hears its password. */
  lemma {:induction false} ProtectedPagesInvisible(a: Card, b: Card, cmds: seq<Command>)
    requires AlikeOutside(a, b) && WellFormedRun(cmds) && NoPassword(a, cmds) && NoPassword(b, cmds)
    ensures Replies(a, cmds) == Replies(b, cmds)
    decreases |cmds|
  {
    hide TagCmd, GivesPassword, AlikeOutside;
    if cmds != [] {
      AlikeProtected(a, b);
      AlikeStep(a, b, cmds[0]);
      StepChanges(a, cmds[0]);
      StepChanges(b, cmds[0]);
      assert forall i :: 0 <= i < |cmds[1..]| ==> cmds[1..][i] == cmds[i + 1];
      ProtectedPagesInvisible(a, b, cmds[1..]);
    }
  }

  lemma AlikeProtected(a: Card, b: Card)
    requires AlikeOutside(a, b)
    ensures Protected(a) && Protected(b)
  {
  }

  // ---------- the listener ----------

  /** ultralight_3des_shift_data on eight bytes of a buffer. */
  method ShiftData(a: array<bv8>, at: nat)
    requires at + 8 <= a.Length
    modifies a
    ensures a[..] == TripleDes.Written(old(a[..]), at, Rotated(old(a[at..at + 8])))
  {
    ghost var was := a[..];
    var first := a[at];
    for i := 1 to 8
      invariant forall j :: at <= j < at + i - 1 ==> a[j] == was[j + 1]
      invariant forall j :: 0 <= j < at || at + i - 1 <= j < a.Length ==> a[j] == was[j]
    {
      a[at + i - 1] := a[at + i];
    }
    a[at + 7] := first;
    var bytes := a[..];
    assert bytes[at..at + 8] == Rotated(was[at..at + 8]);
    assert bytes == bytes[..at] + bytes[at..at + 8] + bytes[at + 8..];
    assert was[at..at + 8] == old(a[at..at + 8]);
  }

  lemma WrittenWhole(before: seq<bv8>, done: seq<bv8>)
    requires |before| == |done|
    ensures TripleDes.Written(before, 0, done) == done
  {
  }

  method Copied(s: seq<bv8>) returns (a: array<bv8>)
    ensures fresh(a) && a[..] == s
  {
    a := new bv8[|s|](i requires 0 <= i < |s| => s[i]);
  }

  /** ultralight_3des_encrypt into a buffer of its own. */
  method EncryptedWith(key: seq<bv8>, iv: seq<bv8>, data: seq<bv8>) returns (out: seq<bv8>)
    requires |key| == 16 && |iv| == 8 && |data| % 8 == 0
    ensures out == TripleDes.CbcEncrypted(key, iv, data)
  {
    hide TripleDes.CbcEncrypted;
    var a := Copied(data);
    assert a[0..|data|] == data;
    TripleDes.Encrypt(key, iv, a, 0, |data|, a, 0);
    out := a[..];
    WrittenWhole(data, TripleDes.CbcEncrypted(key, iv, data));
  }

  lemma ReadOpen(c: Card, start: nat, out: seq<Page>)
    requires WellFormedCard(c) && |out| == 4
    requires forall p :: start <= p < start + 4 ==> !Blocked(c, p)
    requires forall j :: 0 <= j < 4 ==> out[j] == Slot(c.model, start + j)
    ensures ReadReply(c, start) == out[0][..] + out[1][..] + out[2][..] + out[3][..]
  {
    hide Blocked, Slot;
  }

  lemma ReadBlocked(c: Card, start: nat, page: nat)
    requires WellFormedCard(c) && start <= page < start + 4 && Blocked(c, page)
    ensures ReadReply(c, start) == [0]
  {
    hide Blocked;
  }

  class Listener {
    var model: Data
    var cfg: Config
    var auth: Auth
    var rndB: seq<bv8>
    var encB: seq<bv8>

    function Value(): Card
      reads this
    { Card(model, cfg, auth, rndB, encB) }

    predicate Valid()
      reads this
    { WellFormedCard(Value()) }

    /** ultralight_listener_t2_init. */
    constructor ()
      ensures Loaded(Value()) && model == ResetData()
    {
      model, cfg, auth := ResetData(), NoConfig, Idle;
      rndB, encB := Zeros(8), Zeros(8);
    }

    /** ultralight_listener_t2_deserialize.  A refused image replaces the pages but neither the settings
        nor the access they gave. */
    method LoadImage(blob: seq<bv8>) returns (ok: bool)
      requires Valid()
      modifies this
      ensures Valid() && ok == Deserialize(old(model), blob).ok && model == Deserialize(old(model), blob).data
      ensures if ok then Loaded(Value()) else cfg == old(cfg) && auth == old(auth)
      ensures rndB == old(rndB) && encB == old(encB)
    {
      hide ParseConfig, ProtectionOn, HasPassword;
      var l := Load(model, blob);
      model := l.data;
      if !l.ok { return false; }
      LoadedWhole(old(model), blob);
      cfg := ParseConfig(model);
      auth := Idle;
      if HasPassword(model.kind) && model.read >= model.total && cfg.valid && (!ProtectionOn(cfg) || !cfg.prot) { auth := Success; }
      return true;
    }

    /** ultralight_t2_handle_read. */
    method HandleRead(tx: seq<bv8>) returns (rx: seq<bv8>)
      requires Valid()
      ensures rx == if |tx| < 2 then [] else ReadReply(Value(), Num(tx[1]))
    {
      hide ReadReply, FourPages, Num, HasPassword;
      if |tx| < 2 { return []; }
      var start := Num(tx[1]);
      ghost var c := Value();
      var out: seq<Page> := [ZeroPage, ZeroPage, ZeroPage, ZeroPage];
      for i := 0 to 4
        invariant |out| == 4
        invariant forall p :: start <= p < start + i ==> !Blocked(c, p)
        invariant forall j :: 0 <= j < i ==> out[j] == Slot(model, start + j)
        invariant forall j :: i <= j < 4 ==> out[j] == ZeroPage
      {
        var page := start + i;
        if page < model.total {
          if HasPassword(model.kind) && auth != Success && cfg.valid && NeedsAuth(cfg, page) {
            ReadBlocked(c, start, page);
            return [0];
          }
          out := out[i := model.pages[page]];
        }
      }
      ReadOpen(c, start, out);
      rx := out[0][..] + out[1][..] + out[2][..] + out[3][..];
    }

    /** ultralight_t2_handle_auth_start, given the random number it draws. */
    method HandleAuthStart(rnd: seq<bv8>) returns (rx: seq<bv8>)
      requires Valid() && |rnd| == 8
      modifies this
      ensures Value() == AuthStart(old(Value()), rnd).card && rx == AuthStart(old(Value()), rnd).rx
    {
      hide TripleDes.CbcEncrypted, Key;
      if !model.kind.UltralightC? { return []; }
      rndB := rnd;
      encB := EncryptedWith(Key(model), Zeros(8), rndB);
      rx := [0xAF] + encB;
      auth := Waiting;
    }

    /** ultralight_t2_handle_auth_cont. */
    method HandleAuthCont(tx: seq<bv8>) returns (rx: seq<bv8>)
      requires Valid()
      modifies this`auth
      ensures Value() == AuthContinue(old(Value()), tx).card && rx == AuthContinue(old(Value()), tx).rx
    {
      hide TripleDes.CbcEncrypted, TripleDes.CbcDecrypted, Key, TripleDes.Written, Rotated;
      if !model.kind.UltralightC? || |tx| != 17 { return []; }
      var key := Key(model);
      var frame := Copied(tx);
      var plain := new bv8[16];
      ghost var was := plain[..];
      assert tx[1..17] == tx[1..];
      TripleDes.Decrypt(key, encB, frame, 1, 16, plain, 0);
      WrittenWhole(was, TripleDes.CbcDecrypted(key, encB, tx[1..]));
      var shiftedA := Rotate(plain[..8]);
      var shiftedB := Rotate(rndB);
      if plain[8..] != shiftedB {
        auth := Idle;
        return [];
      }
      auth := Success;
      var sealedA := EncryptedWith(key, tx[9..], shiftedA);
      rx := [0x00] + sealedA;
    }

    /** ultralight_t2_handle_pwd_auth. */
    method HandlePwdAuth(tx: seq<bv8>) returns (rx: seq<bv8>)
      requires Valid() && tx != [] && tx[0] == 0x1B
      modifies this`auth
      ensures var right := HasPassword(model.kind) && cfg.valid && GivesPassword(old(Value()), tx);
              auth == (if right then Success else old(auth)) && rx == if right then cfg.pack else []
    {
      if !HasPassword(model.kind) || |tx| < 5 { return []; }
      if !cfg.valid { return []; }
      if tx[1..5] != cfg.pwd { return []; }
      auth := Success;
      rx := cfg.pack;
    }

    /** ultralight_listener_t2_on_tag_cmd. */
    method OnTagCmd(tx: seq<bv8>, rnd: seq<bv8>) returns (rx: seq<bv8>)
      requires Valid() && |rnd| == 8
      modifies this
      ensures Value() == TagCmd(old(Value()), tx, rnd).card && rx == TagCmd(old(Value()), tx, rnd).rx
      ensures Valid() && model == old(model) && cfg == old(cfg)
    {
      hide ReadReply, AuthStart, AuthContinue, GivesPassword;
      rx := [];
      if tx == [] { return; }
      if tx[0] == 0x30 { rx := HandleRead(tx); }
      else if tx[0] == 0x60 { rx := model.version; }
      else if tx[0] == 0x3C { rx := model.signature; }
      else if tx[0] == 0x39 { if |tx| >= 2 && Num(tx[1]) < |model.counters| { rx := model.counters[Num(tx[1])]; } }
      else if tx[0] == 0x3E { if |tx| >= 2 && Num(tx[1]) < |model.tearing| { rx := [model.tearing[Num(tx[1])]]; } }
      else if tx[0] == 0x1B { rx := HandlePwdAuth(tx); }
      else if tx[0] == 0x1A { rx := HandleAuthStart(rnd); }
      else if tx[0] == 0xAF && auth == Waiting { rx := HandleAuthCont(tx); }
    }
  }

  /** A rotated copy. */
  method Rotate(s: seq<bv8>) returns (r: seq<bv8>)
    requires |s| == 8
    ensures r == Rotated(s)
  {
    hide Rotated, TripleDes.Written;
    var a := Copied(s);
    assert a[0..8] == s;
    ShiftData(a, 0);
    r := a[..];
    WrittenWhole(s, Rotated(s));
  }

  // ---------- three-pass authentication ----------

  /** What the reader sends back. */
  function ReaderProof(key: seq<bv8>, encB: seq<bv8>, rndA: seq<bv8>, rndB: seq<bv8>): (tx: seq<bv8>)
    requires |key| == 16 && |encB| == |rndA| == |rndB| == 8
    ensures |tx| == 17
  { [0xAF] + TripleDes.CbcEncrypted(key, encB, rndA + Rotated(rndB)) }

  /** The RndB the reader takes from the card's first answer. */
  function OpenedB(key: seq<bv8>, encB: seq<bv8>): (rndB: seq<bv8>)
    requires |key| == 16 && |encB| == 8
    ensures |rndB| == 8
  { TripleDes.CbcDecrypted(key, Zeros(8), encB) }

  /** The card accepts exactly the proof for some RndA of the RndB it sent. */
  lemma AcceptsIff(c: Card, tx: seq<bv8>)
    requires WellFormedCard(c) && |tx| == 17 && tx[0] == 0xAF
    ensures AuthAccepts(c, tx) <==> tx == ReaderProof(Key(c.model), c.encB, AuthPlain(c, tx)[..8], c.rndB)
  {
    hide TripleDes.CbcEncrypted, TripleDes.CbcDecrypted, Key, Rotated;
    var key, plain := Key(c.model), AuthPlain(c, tx);
    TripleDes.CbcRoundTripBack(key, c.encB, tx[1..]);
    TripleDes.CbcRoundTrip(key, c.encB, plain[..8] + Rotated(c.rndB));
    assert plain == plain[..8] + plain[8..];
    assert (plain[..8] + Rotated(c.rndB))[8..] == Rotated(c.rndB);
    assert tx == [0xAF] + tx[1..];
  }

  lemma ProofAccepted(c: Card, rndA: seq<bv8>)
    requires WellFormedCard(c) && |rndA| == 8 && c.model.kind.UltralightC?
    ensures var tx := ReaderProof(Key(c.model), c.encB, rndA, c.rndB);
            AuthContinue(c, tx) == Turn(c.(auth := Success), [0x00] + TripleDes.CbcEncrypted(Key(c.model), tx[9..], Rotated(rndA)))
  {
    hide TripleDes.CbcEncrypted, TripleDes.CbcDecrypted, Key, Rotated;
    var key, tx := Key(c.model), ReaderProof(Key(c.model), c.encB, rndA, c.rndB);
    var plain := rndA + Rotated(c.rndB);
    TripleDes.CbcRoundTrip(key, c.encB, plain);
    assert tx[1..] == TripleDes.CbcEncrypted(key, c.encB, plain);
    assert plain[8..] == Rotated(c.rndB) && plain[..8] == rndA;
  }

  lemma AuthCommands(c: Card, tx: seq<bv8>, rnd: seq<bv8>)
    requires WellFormedCard(c) && |rnd| == 8
    ensures TagCmd(c, [0x1A, 0x00], rnd) == AuthStart(c, rnd)
    ensures tx != [] && tx[0] == 0xAF && c.auth == Waiting ==> TagCmd(c, tx, rnd) == AuthContinue(c, tx)
  {
    hide AuthStart, AuthContinue, ReadReply;
  }

  /** The reader's buffer: RndA and the rotated RndB, encrypted in place.  The second half ends
      up holding the vector for the card's answer. */
  method Seal(key: seq<bv8>, enc: seq<bv8>, rndA: seq<bv8>) returns (output: array<bv8>)
    requires |key| == 16 && |enc| == |rndA| == 8
    ensures fresh(output) && output.Length == 16
    ensures [0xAF] + output[..] == ReaderProof(key, enc, rndA, OpenedB(key, enc))
  {
    hide TripleDes.CbcEncrypted, TripleDes.CbcDecrypted, Rotated;
    var input := Copied(enc);
    output := new bv8[16];
    ghost var rndB := TripleDes.CbcDecrypted(key, Zeros(8), enc);
    assert input[0..8] == enc;
    TripleDes.Decrypt(key, Zeros(8), input, 0, 8, output, 8);
    assert output[8..16] == rndB;
    ShiftData(output, 8);
    forall i | 0 <= i < 8 { output[i] := rndA[i]; }
    ghost var plain := rndA + Rotated(rndB);
    assert output[..] == plain;
    assert output[0..16] == plain;
    TripleDes.Encrypt(key, enc, output, 0, 16, output, 0);
    WrittenWhole(plain, TripleDes.CbcEncrypted(key, enc, plain));
  }

  /** The key of the image, as the bytes of its pages 44 to 47. */
  function Stored(d: Data): (key: seq<bv8>)
    requires WellFormed(d)
    ensures |key| == 16
  {
    GlueAt(d.pages[44..48], 4, 0);
    SpanIs(4);
    Glue(d.pages[44..48])
  }

  lemma FourGlued(a: Page, b: Page, c: Page, d: Page)
    ensures Glue([a, b, c, d]) == a[..] + b[..] + c[..] + d[..]
  {
    assert [a, b, c, d][..3] == [a, b, c] && [a, b, c][..2] == [a, b] && [a, b][..1] == [a] && [a][..0] == [];
    assert Glue([a]) == a && Glue([a, b]) == a + b && Glue([a, b, c]) == a + b + c;
  }

  lemma KeyIsStored(d: Data)
    requires WellFormed(d)
    ensures Key(d) == Stored(d)
  {
    assert d.pages[44..48] == [d.pages[44], d.pages[45], d.pages[46], d.pages[47]];
    FourGlued(d.pages[44], d.pages[45], d.pages[46], d.pages[47]);
  }

  lemma CardKey(c: Card)
    requires WellFormedCard(c)
    ensures WellFormed(c.model) && Key(c.model) == Stored(c.model)
  {
    hide Key, Stored;
    KeyIsStored(c.model);
  }

  lemma SizeOfC(total: nat)
    requires KindOf(total).UltralightC?
    ensures total == 48
  {
  }

  /** In a stored image of an Ultralight C those are sixteen bytes at a fixed place. */
  lemma StoredInBlob(d: Data, blob: seq<bv8>)
    requires WellFormed(d) && Deserialize(d, blob).ok && Deserialize(d, blob).data.kind.UltralightC?
    ensures |blob| >= 196 && Stored(Deserialize(d, blob).data) == blob[180..196]
  {
    hide Deserialize, KindOf, Num, Split, Glue, PagesAt;
    var m := Deserialize(d, blob).data;
    LoadedPages(d, blob);
    SizeOfC(m.total);
    LoadedPage(d, blob, 44); LoadedPage(d, blob, 45); LoadedPage(d, blob, 46); LoadedPage(d, blob, 47);
    FourGlued(m.pages[44], m.pages[45], m.pages[46], m.pages[47]);
    assert m.pages[44..48] == [m.pages[44], m.pages[45], m.pages[46], m.pages[47]];
    assert blob[180..184] + blob[184..188] + blob[188..192] + blob[192..196] == blob[180..196];
  }

  /** Whether a reader that holds one key is accepted by a card that holds another. */
  predicate Convinces(cardKey: seq<bv8>, key: seq<bv8>, rndA: seq<bv8>, rndB: seq<bv8>)
    requires |cardKey| == |key| == 16 && |rndA| == |rndB| == 8
  {
    var enc := TripleDes.CbcEncrypted(cardKey, Zeros(8), rndB);
    TripleDes.CbcDecrypted(cardKey, enc, ReaderProof(key, enc, rndA, OpenedB(key, enc))[1..])[8..] == Rotated(rndB)
  }

  /** A second pass is answered with nine bytes, the first of them zero, exactly when it is accepted. */
  lemma SecondPass(c: Card, tx: seq<bv8>)
    requires WellFormedCard(c) && |tx| == 17 && c.model.kind.UltralightC?
    ensures var t := AuthContinue(c, tx);
            && (|t.rx| == 9 <==> AuthAccepts(c, tx)) && (|t.rx| == 9 ==> t.rx[0] == 0)
            && (t.card.auth == Success <==> AuthAccepts(c, tx))
  {
    hide TripleDes.CbcEncrypted, TripleDes.CbcDecrypted, Key, Rotated, AuthAccepts;
  }

  predicate ProofBy(key: seq<bv8>, enc: seq<bv8>, rndA: seq<bv8>, rndB: seq<bv8>, tx: seq<bv8>) {
    |key| == 16 && |enc| == |rndA| == |rndB| == 8 && tx == ReaderProof(key, enc, rndA, rndB)
  }

  /** The card seals its random number under the stored key, and accepts exactly the proofs made with it. */
  lemma KeyDecides(c: Card, rndB: seq<bv8>, tx: seq<bv8>)
    requires WellFormedCard(c) && c.model.kind.UltralightC? && |rndB| == 8 && |tx| == 17 && tx[0] == 0xAF
    ensures var key, first := Stored(c.model), TagCmd(c, [0x1A, 0x00], rndB);
            var enc := TripleDes.CbcEncrypted(key, Zeros(8), rndB);
            && first.rx == [0xAF] + enc
            && (TagCmd(first.card, tx, rndB).card.auth == Success <==> exists rndA :: ProofBy(key, enc, rndA, rndB, tx))
  {
    hide TripleDes.CbcEncrypted, TripleDes.CbcDecrypted, Key, Stored, Rotated, TagCmd, ReaderProof, AuthPlain, AuthContinue, AuthAccepts;
    CardKey(c);
    AuthCommands(c, [], rndB);
    var key, first := Key(c.model), AuthStart(c, rndB).card;
    AuthCommands(first, tx, rndB);
    SecondPass(first, tx);
    AcceptsIff(first, tx);
    if AuthAccepts(first, tx) {
      assert ProofBy(key, first.encB, AuthPlain(first, tx)[..8], rndB, tx);
    } else {
      forall rndA ensures !ProofBy(key, first.encB, rndA, rndB, tx) {
        if |rndA| == 8 { ProofOpens(first, rndA, tx); }
      }
    }
  }

  /** Loaded from a blob, those are the proofs made with its bytes 180 to 195. */
  lemma BlobKeyDecides(d: Data, blob: seq<bv8>, c: Card, rndB: seq<bv8>, tx: seq<bv8>)
    requires WellFormed(d) && Deserialize(d, blob).ok && c.model == Deserialize(d, blob).data && c.model.kind.UltralightC?
    requires WellFormedCard(c) && |rndB| == 8 && |tx| == 17 && tx[0] == 0xAF
    ensures |blob| >= 196
    ensures var key, first := blob[180..196], TagCmd(c, [0x1A, 0x00], rndB);
            var enc := TripleDes.CbcEncrypted(key, Zeros(8), rndB);
            && first.rx == [0xAF] + enc
            && (TagCmd(first.card, tx, rndB).card.auth == Success <==> exists rndA :: ProofBy(key, enc, rndA, rndB, tx))
  {
    hide Deserialize, TripleDes.CbcEncrypted, TagCmd, ProofBy, Stored;
    StoredInBlob(d, blob);
    KeyDecides(c, rndB, tx);
  }

  lemma ProofOpens(c: Card, rndA: seq<bv8>, tx: seq<bv8>)
    requires WellFormedCard(c) && |rndA| == 8 && c.model.kind.UltralightC? && |tx| == 17 && !AuthAccepts(c, tx)
    ensures tx != ReaderProof(Key(c.model), c.encB, rndA, c.rndB)
  {
    ProofAccepted(c, rndA);
    hide TripleDes.CbcEncrypted, TripleDes.CbcDecrypted, Key, Rotated, ReaderProof;
  }

  /** The exchange on values, when the keys agree. */
  lemma ThreePass(c: Card, rndA: seq<bv8>, rndB: seq<bv8>)
    requires WellFormedCard(c) && c.model.kind.UltralightC? && |rndA| == |rndB| == 8
    ensures var key, t := Stored(c.model), AuthStart(c, rndB);
            var enc := t.card.encB;
            var tx := ReaderProof(key, enc, rndA, OpenedB(key, enc));
            && t.rx == [0xAF] + enc && t.card.auth == Waiting
            && AuthContinue(t.card, tx).card.auth == Success
            && AuthContinue(t.card, tx).rx == [0x00] + TripleDes.CbcEncrypted(key, tx[9..], Rotated(rndA))
            && TripleDes.CbcDecrypted(key, tx[9..], TripleDes.CbcEncrypted(key, tx[9..], Rotated(rndA))) == Rotated(rndA)
  {
    hide TripleDes.CbcEncrypted, TripleDes.CbcDecrypted, Key, Stored, Rotated, AuthContinue;
    CardKey(c);
    var key, t := Key(c.model), AuthStart(c, rndB);
    var enc := t.card.encB;
    TripleDes.CbcRoundTrip(key, Zeros(8), rndB);
    ProofAccepted(t.card, rndA);
    var tx := ReaderProof(key, enc, rndA, rndB);
    TripleDes.CbcRoundTrip(key, tx[9..], Rotated(rndA));
  }

  lemma StartOnlyC(c: Card, rndB: seq<bv8>)
    requires WellFormedCard(c) && |rndB| == 8
    ensures var t := AuthStart(c, rndB);
            if c.model.kind.UltralightC? then |t.rx| == 9 && t.rx[0] == 0xAF && t.rx[1..] == t.card.encB else t == Turn(c, [])
  {
    hide TripleDes.CbcEncrypted, Key;
  }

  /** Whether the reader is accepted depends on the two keys and the random numbers only. */
  lemma ConvincesIff(c: Card, key: seq<bv8>, rndA: seq<bv8>, rndB: seq<bv8>)
    requires WellFormedCard(c) && c.model.kind.UltralightC? && |key| == 16 && |rndA| == |rndB| == 8
    ensures var t := AuthStart(c, rndB);
            && t.rx == [0xAF] + t.card.encB && t.card.auth == Waiting
            && (AuthAccepts(t.card, ReaderProof(key, t.card.encB, rndA, OpenedB(key, t.card.encB))) <==>
                Convinces(Stored(c.model), key, rndA, rndB))
  {
    hide TripleDes.CbcEncrypted, TripleDes.CbcDecrypted, Key, Stored, Rotated, ReaderProof, OpenedB;
    CardKey(c);
  }

  /** ultralight_poller_i_authenticate against the listener.  For every key the two share and all
      random numbers, both sides end convinced. */
  method Authenticate(card: Listener, key: seq<bv8>, rndA: seq<bv8>, cardRnd: seq<bv8>)
    returns (ok: bool, authenticated: bool)
    requires card.Valid() && |key| == 16 && |rndA| == 8 && |cardRnd| == 8
    modifies card
    ensures card.Valid() && card.model == old(card.model) && card.cfg == old(card.cfg)
    ensures card.model.kind.UltralightC? && key == Stored(card.model) ==> ok && authenticated && card.auth == Success
    ensures card.model.kind.UltralightC? ==> (ok <==> Convinces(Stored(card.model), key, rndA, cardRnd))
    ensures card.model.kind.UltralightC? ==> (ok <==> card.auth == Success)
    ensures !card.model.kind.UltralightC? ==> !ok && !authenticated && card.Value() == old(card.Value())
  {
    hide TripleDes.CbcEncrypted, TripleDes.CbcDecrypted, TripleDes.Written, Key, Stored, Rotated, TagCmd, WellFormedCard;
    hide AuthStart, AuthContinue, AuthAccepts, Convinces, ReaderProof, OpenedB;
    ok, authenticated := false, false;
    ghost var start := card.Value();
    CardKey(start);
    AuthCommands(start, [], cardRnd);
    StartOnlyC(start, cardRnd);
    var rx := card.OnTagCmd([0x1A, 0x00], cardRnd);
    if |rx| != 9 || rx[0] != 0xAF { return; }
    var enc := rx[1..];
    var output := Seal(key, enc, rndA);
    var tx := [0xAF] + output[..];
    if start.model.kind.UltralightC? {
      AuthCommands(card.Value(), tx, cardRnd);
      ThreePass(start, rndA, cardRnd);
      ConvincesIff(start, key, rndA, cardRnd);
      SecondPass(card.Value(), tx);
    }
    rx := card.OnTagCmd(tx, cardRnd);
    if |rx| != 9 || rx[0] != 0x00 { return; }
    var reply := Copied(rx);
    var decoded := new bv8[8];
    ghost var was := decoded[..];
    assert reply[1..9] == rx[1..] && output[8..] == tx[9..];
    TripleDes.Decrypt(key, output[8..], reply, 1, 8, decoded, 0);
    WrittenWhole(was, TripleDes.CbcDecrypted(key, tx[9..], rx[1..]));
    var mine := Rotate(rndA);
    ok, authenticated := true, decoded[..] == mine;
  }
}
