/** The page reader of ultralight_poller.c against the listener: four pages a READ, with attempts
    at the password where the settings read so far suggest one; and what becomes of a tag that is
    read, saved and loaded elsewhere. */
module UltralightReader {
  import opened Words
  import opened Octets
  import opened Ultralight
  import opened UltralightImage

  lemma Commands(c: Card, page: bv8, pwd: seq<bv8>, rnd: seq<bv8>)
    requires WellFormedCard(c) && |rnd| == 8 && |pwd| == 4
    ensures TagCmd(c, [0x30, page], rnd) == Turn(c, ReadReply(c, Num(page)))
    ensures TagCmd(c, [0x1B] + pwd, rnd) ==
            if Opens(c, pwd) then Turn(c.(auth := Success), c.cfg.pack) else Turn(c, [])
  {
    hide AuthStart, AuthContinue, ReadReply;
    assert ([0x1B] + pwd)[1..5] == pwd;
  }

  /** The card takes this password. */
  predicate Opens(c: Card, pwd: seq<bv8>) {
    HasPassword(c.model.kind) && c.cfg.valid && pwd == c.cfg.pwd
  }

  const DefaultPwd: Page := [0xFF, 0xFF, 0xFF, 0xFF]

  /** One of the passwords the reader would try, given the settings it has read, opens the card. */
  predicate Guesses(c: Card, cfg: Config) {
    cfg.valid && (Opens(c, cfg.pwd) || (cfg.authlim == 0 && Opens(c, DefaultPwd)))
  }

  /** ultralight_poller_i_read_page. */
  method ReadPage(card: Listener, page: nat, rnd: seq<bv8>) returns (ok: bool, buf: seq<bv8>)
    requires card.Valid() && page < 256 && |rnd| == 8
    modifies card
    ensures card.Value() == old(card.Value())
    ensures ok == !AnyBlocked(card.Value(), page)
    ensures |buf| == 16 && (ok ==> buf == FourPages(card.model, page))
  {
    hide TagCmd, AnyBlocked, FourPages;
    Commands(card.Value(), Octet(page), DefaultPwd, rnd);
    var rx := card.OnTagCmd([0x30, Octet(page)], rnd);
    if |rx| < 16 { return false, Zeros(16); }
    return true, rx[..16];
  }

  /** ultralight_poller_i_pwd_auth. */
  method PwdAuth(card: Listener, pwd: seq<bv8>, rnd: seq<bv8>) returns (ok: bool)
    requires card.Valid() && |pwd| == 4 && |rnd| == 8
    modifies card
    ensures ok == Opens(old(card.Value()), pwd)
    ensures card.Value() == if ok then old(card.Value()).(auth := Success) else old(card.Value())
  {
    hide TagCmd;
    Commands(card.Value(), 0, pwd, rnd);
    var rx := card.OnTagCmd([0x1B] + pwd, rnd);
    return |rx| >= 2;
  }

  /** ultralight_poller_try_pwd_auth. */
  method TryPwdAuth(card: Listener, cfg: Config, authenticated: bool, rnd: seq<bv8>) returns (ok: bool, now: bool)
    requires card.Valid() && |cfg.pwd| == 4 && |rnd| == 8
    modifies card
    ensures ok == (!authenticated && Guesses(old(card.Value()), cfg)) && now == (authenticated || ok)
    ensures card.Value() == if ok then old(card.Value()).(auth := Success) else old(card.Value())
  {
    now := authenticated;
    if authenticated { return false, now; }
    if cfg.valid {
      ok := PwdAuth(card, cfg.pwd, rnd);
      if ok { return true, true; }
      if cfg.authlim == 0 {
        ok := PwdAuth(card, DefaultPwd, rnd);
        if ok { return true, true; }
      }
      return;
    }
    ok := false;
  }

  /** Page p once i pages of a chunk are copied. */
  function Copied4(before: Data, start: nat, i: nat, buf: seq<bv8>, p: nat): Page
    requires |buf| == 16 && i <= 4 && p < |before.pages|
  { if start <= p < start + i && p < before.total then buf[4 * (p - start)..4 * (p - start) + 4] else before.pages[p] }

  /** The data after a chunk from page start: the card's pages as far as the data reaches. */
  predicate ChunkOf(out: Data, before: Data, start: nat, buf: seq<bv8>)
    requires |buf| == 16
  {
    && out == before.(pages := out.pages, read := if start + 4 < before.total then start + 4 else before.total)
    && |out.pages| == |before.pages|
    && forall p :: 0 <= p < |out.pages| ==>
         out.pages[p] == Copied4(before, start, 4, buf, p)
  }

  /** ultralight_poller_copy_read_chunk. */
  method CopyReadChunk(before: Data, start: nat, buf: seq<bv8>) returns (out: Data)
    requires WellFormed(before) && |buf| == 16
    ensures ChunkOf(out, before, start, buf)
  {
    out := before;
    var i := 0;
    while i < 4
      invariant 0 <= i <= 4 && |out.pages| == |before.pages| && out == before.(pages := out.pages)
      invariant i < 4 || start + 4 <= |before.pages| || before.total < start + 4
      invariant forall p :: 0 <= p < |out.pages| ==> out.pages[p] == Copied4(before, start, i, buf, p)
    {
      var page := start + i;
      if page >= before.total { break; }
      out := out.(pages := out.pages[page := buf[4 * i..4 * i + 4]]);
      i := i + 1;
    }
    out := out.(read := if start + 4 < before.total then start + 4 else before.total);
  }

  /** One turn of the loop of ultralight_poller_read_pages. */
  method ReadChunk(card: Listener, before: Data, start: nat, authenticated: bool, rnd: seq<bv8>)
    returns (stop: bool, out: Data, now: bool)
    requires card.Valid() && WellFormed(before) && start < before.total && |rnd| == 8
    modifies card
    ensures card.Valid() && card.model == old(card.model) && card.cfg == old(card.cfg)
    ensures var c, cfg := old(card.Value()), ParseConfig(before);
            && stop == (if authenticated then AnyBlocked(c, start)
                        else !Guesses(c, cfg) && (NeedsAuth(cfg, start) || AnyBlocked(c, start)))
            && card.Value() == c.(auth := if now && !authenticated then Success else c.auth)
            && (!Guesses(c, cfg) ==> now == authenticated)
    ensures stop ==> out == before
    ensures !stop ==> ChunkOf(out, before, start, FourPages(card.model, start))
  {
    hide FourPages, Opens, ParseConfig, ChunkOf;
    ghost var c := card.Value();
    out, now := before, authenticated;
    var ok;
    var cfg := ParseConfig(before);
    var configStart := if before.total < 5 then 0 else before.total - 4;
    if HasPassword(before.kind) && cfg.valid && !now && ProtectionOn(cfg) && start >= configStart {
      ok, now := TryPwdAuth(card, cfg, now, rnd);
    }
    if NeedsAuth(cfg, start) && !now {
      ok, now := TryPwdAuth(card, cfg, now, rnd);
      if !ok { return true, before, now; }
    }
    var buf;
    ok, buf := ReadPage(card, start, rnd);
    if !ok {
      if !now && cfg.valid {
        var tried;
        tried, now := TryPwdAuth(card, cfg, now, rnd);
        if now { ok, buf := ReadPage(card, start, rnd); }
      }
      if !ok { return true, before, now; }
    }
    out := CopyReadChunk(before, start, buf);
    stop := false;
  }

  // ---------- the whole reader ----------

  /** Reader and card agree on the kind of tag, the card holds a freshly loaded image, and the
      reader starts from cleared data. */
  predicate Fresh(c: Card, out: Data) {
    && Loaded(c) && WellFormed(out) && out.kind == c.model.kind && out.total == c.model.total == PagesTotal(out.kind)
    && forall p :: 0 <= p < MaxPages ==> out.pages[p] == ZeroPage
  }

  function Last(total: nat): nat { if total == 0 then 0 else (total - 1) / 4 * 4 }

  /** Some page of the image is protected. */
  predicate Guarded(d: Data)
    requires WellFormed(d)
  { var c := ParseConfig(d); ProtectionOn(c) && c.prot && c.auth0 < d.total }

  /** The reader has the password by the time it reaches the last chunk: it has read the page
      that holds it, or it is one of the two it tries blindly. */
  predicate PasswordKnown(d: Data)
    requires WellFormed(d) && d.total >= 5
  { d.total - 2 < Last(d.total) || d.pages[d.total - 2] == ZeroPage || d.pages[d.total - 2] == DefaultPwd }

  /** How many pages the reader gets. */
  function Reach(d: Data): nat
    requires WellFormed(d)
  {
    if !Guarded(d) then d.total
    else
      var first := ParseConfig(d).auth0 / 4 * 4;
      if first == Last(d.total) && PasswordKnown(d) then d.total else first
  }

  /** Pages read so far are the card's, the rest untouched. */
  predicate Faithful(out: Data, before: Data, model: Data)
    requires WellFormed(model) && WellFormed(before)
  {
    && WellFormed(out) && out == before.(pages := out.pages, read := out.read)
    && (forall p :: 0 <= p < out.read ==> out.pages[p] == Slot(model, p))
    && (forall p :: out.read <= p < MaxPages ==> out.pages[p] == before.pages[p])
  }

  lemma ChunkFaithful(out: Data, mid: Data, before: Data, model: Data, start: nat)
    requires WellFormed(before) && WellFormed(model) && Faithful(mid, before, model) && start < before.total
    requires mid.read == start && ChunkOf(out, mid, start, FourPages(model, start))
    ensures Faithful(out, before, model)
  {
    forall p | 0 <= p < out.read ensures out.pages[p] == Slot(model, p) {
      if p >= start { FourPagesAt(model, start, p - start); }
    }
  }

  lemma FourPagesAt(d: Data, start: nat, i: nat)
    requires WellFormed(d) && i < 4
    ensures FourPages(d, start)[4 * i..4 * i + 4] == Slot(d, start + i)
  {
  }

  /** Before the last chunk the reader has not seen the settings. */
  lemma NoSettingsYet(out: Data)
    requires WellFormed(out) && out.read < Last(out.total) && out.read % 4 == 0
    ensures ParseConfig(out) == NoConfig
  {
  }

  /** At the last chunk it has seen AUTH0, and on the smallest tag all it needs. */
  lemma SettingsAtLast(c: Card, out: Data, before: Data)
    requires Fresh(c, before) && Faithful(out, before, c.model) && out.read == Last(out.total) && HasPassword(out.kind)
    ensures var cfg := ParseConfig(out);
            && cfg.valid && cfg.auth0 == c.cfg.auth0
            && cfg.pwd == (if out.kind.Ntag213? then c.cfg.pwd else ZeroPage)
            && (if out.kind.Ntag213? then cfg.prot == c.cfg.prot else !cfg.prot && cfg.authlim == 0)
  {
  }

  lemma GuessAtLast(c: Card, out: Data, before: Data)
    requires Fresh(c, before) && Faithful(out, before, c.model) && out.read == Last(out.total) && HasPassword(out.kind)
    ensures Guesses(c, ParseConfig(out)) <==> PasswordKnown(c.model)
  {
    SettingsAtLast(c, out, before);
  }

  function FirstGuarded(d: Data): nat
    requires WellFormed(d)
  { ParseConfig(d).auth0 / 4 * 4 }

  /** The reader gives up at the chunk with the first protected page, unless that is the last
      chunk and it knows the password. */
  lemma StopsIff(c: Card, out: Data, before: Data)
    requires Fresh(c, before) && Faithful(out, before, c.model) && out.read % 4 == 0 && out.read < out.total
    requires Guarded(c.model) ==> out.read <= FirstGuarded(c.model)
    ensures var cfg := ParseConfig(out);
            !Guesses(c, cfg) && (NeedsAuth(cfg, out.read) || AnyBlocked(c, out.read)) <==>
            Guarded(c.model) && out.read == FirstGuarded(c.model)
            && !(out.read == Last(out.total) && PasswordKnown(c.model))
    ensures out.read < Last(out.total) ==> !Guesses(c, ParseConfig(out))
  {
    BlockedIff(c, out.read);
    if out.read < Last(out.total) {
      NoSettingsYet(out);
    } else if HasPassword(out.kind) {
      SettingsAtLast(c, out, before);
      GuessAtLast(c, out, before);
    }
  }

  lemma BlockedIff(c: Card, start: nat)
    requires Loaded(c) && start % 4 == 0 && (Guarded(c.model) ==> start <= FirstGuarded(c.model))
    ensures AnyBlocked(c, start) <==> Guarded(c.model) && start == FirstGuarded(c.model)
  {
    BlockedAt(c, start); BlockedAt(c, start + 1); BlockedAt(c, start + 2); BlockedAt(c, start + 3);
    if Guarded(c.model) { InChunk(c.cfg.auth0, start, c.model.total); }
    assert FirstGuarded(c.model) == c.cfg.auth0 / 4 * 4;
    hide Blocked, Guarded, Loaded, FirstGuarded, ParseConfig;
  }

  lemma InChunk(auth0: nat, start: nat, total: nat)
    requires start % 4 == 0 && auth0 < total && start <= auth0 / 4 * 4
    ensures (auth0 <= start < total || auth0 <= start + 1 < total || auth0 <= start + 2 < total || auth0 <= start + 3 < total)
            <==> start == auth0 / 4 * 4
  {
    var k := start / 4;
    assert start == 4 * k;
  }

  lemma BlockedAt(c: Card, page: nat)
    requires Loaded(c)
    ensures Blocked(c, page) <==> Guarded(c.model) && c.cfg.auth0 <= page < c.model.total
    ensures Guarded(c.model) ==> c.cfg.auth0 < c.model.total
  {
  }

  lemma LastChunk(start: nat, total: nat)
    requires start % 4 == 0 && start < total
    ensures start <= Last(total) && (start + 4 < total <==> start < Last(total))
  {
  }

  lemma FaithfulStart(out: Data, before: Data, model: Data)
    requires WellFormed(before) && WellFormed(model) && out == before.(read := 0)
    ensures Faithful(out, before, model)
  {
  }

  lemma FaithfulShape(out: Data, before: Data, model: Data)
    requires WellFormed(before) && WellFormed(model) && Faithful(out, before, model)
    ensures WellFormed(out) && out.total == before.total && out.kind == before.kind
  {
  }

  lemma ChunkRead(out: Data, mid: Data, start: nat, buf: seq<bv8>)
    requires |buf| == 16 && ChunkOf(out, mid, start, buf)
    ensures out.total == mid.total && out.read == if start + 4 < mid.total then start + 4 else mid.total
  {
  }

  /** A guarded image has its first guarded chunk at or before the last. */
  lemma LastGuarded(c: Card, before: Data)
    requires Fresh(c, before)
    ensures before.total == c.model.total && Reach(c.model) ==
            if !Guarded(c.model) || (FirstGuarded(c.model) == Last(c.model.total) && PasswordKnown(c.model)) then c.model.total
            else FirstGuarded(c.model)
    ensures Guarded(c.model) ==> FirstGuarded(c.model) <= Last(c.model.total) && FirstGuarded(c.model) % 4 == 0
    ensures c.model.total == 0 ==> Reach(c.model) == 0
  {
  }

  /** On the larger tags the password page lies in the last chunk, so an image protected from that
      chunk on is read in full exactly when its password is one of the two tried blindly. */
  lemma LargeTagReach(d: Data)
    requires WellFormed(d) && (d.kind.Ntag215? || d.kind.Ntag216?) && d.total == PagesTotal(d.kind)
    requires Guarded(d) && ParseConfig(d).auth0 >= Last(d.total)
    ensures Reach(d) == d.total <==> ParseConfig(d).pwd == [0x00, 0x00, 0x00, 0x00] || ParseConfig(d).pwd == [0xFF, 0xFF, 0xFF, 0xFF]
    ensures Reach(d) == d.total || Reach(d) == Last(d.total) < d.total
  {
  }

  /** On the smallest one it has been read by then, so the read is complete whatever the password. */
  lemma SmallTagReach(d: Data)
    requires WellFormed(d) && d.kind.Ntag213? && d.total == PagesTotal(d.kind)
    requires Guarded(d) && ParseConfig(d).auth0 >= Last(d.total)
    ensures Reach(d) == d.total
  {
  }

  /** An image of this kind: AUTH0 at the given page, PROT set, password 01 02 03 04, all else zero. */
  function Locked(kind: Kind, auth0: nat): (d: Data)
    requires HasPassword(kind) && auth0 < 256
    ensures WellFormed(d)
  {
    var n := PagesTotal(kind);
    var pages: seq<Page> := seq(MaxPages, i requires 0 <= i < MaxPages =>
      if i == n - 4 then [0, 0, 0, Octet(auth0)] else if i == n - 3 then [0x80, 0, 0, 0]
      else if i == n - 2 then [1, 2, 3, 4] else ZeroPage);
    Data(pages, n, n, kind, [], [], [], [], NoVariant)
  }

  /** A locked NTAG215 is left at page 132 of 135; a locked NTAG213 is read to its end. */
  lemma LockedTags()
    ensures Reach(Locked(Ntag215, 132)) == 132 < Locked(Ntag215, 132).total
    ensures Reach(Locked(Ntag213, 44)) == 45 == Locked(Ntag213, 44).total
  {
    var big, small := Locked(Ntag215, 132), Locked(Ntag213, 44);
    LockedConfig(Ntag215, 132);
    LockedConfig(Ntag213, 44);
    hide Locked, Reach, ParseConfig;
    LargeTagReach(big);
    SmallTagReach(small);
  }

  lemma LockedConfig(kind: Kind, auth0: nat)
    requires HasPassword(kind) && auth0 < PagesTotal(kind)
    ensures var d := Locked(kind, auth0);
            && d.kind == kind && d.total == PagesTotal(kind) && Guarded(d)
            && ParseConfig(d).auth0 == auth0 && ParseConfig(d).pwd == [1, 2, 3, 4]
  {
    var d, n := Locked(kind, auth0), PagesTotal(kind);
    assert d.pages[n - 4] == [0, 0, 0, Octet(auth0)] && d.pages[n - 3] == [0x80, 0, 0, 0] && d.pages[n - 2] == [1, 2, 3, 4];
    assert d.pages[n - 4][3] == Octet(auth0) && d.pages[n - 3][0] == 0x80;
    HighBit(d.pages[n - 3][0]);
    hide Locked;
  }

  lemma HighBit(b: bv8)
    requires b == 0x80
    ensures b & 0x80 != 0
  {
  }

  /** ultralight_poller_read_pages.  Whatever the card, the pages counted as read are the card's,
      zero past its end, and nothing else is touched.  Against a freshly loaded card of the kind
      the reader expects, the number of pages is exactly Reach. */
  method ReadPages(card: Listener, before: Data, rnd: seq<bv8>) returns (out: Data)
    requires card.Valid() && WellFormed(before) && |rnd| == 8
    modifies card
    ensures card.Valid() && card.model == old(card.model)
    ensures Faithful(out, before, card.model) && (out.read == out.total || out.read % 4 == 0)
    ensures Fresh(old(card.Value()), before) ==> out.read == Reach(card.model)
  {
    hide Guesses, PasswordKnown, Guarded, FirstGuarded, Faithful, NeedsAuth, AnyBlocked, ChunkOf, FourPages, ParseConfig, Reach, Last;
    ghost var c := card.Value();
    ghost var matched := Fresh(c, before);
    hide Fresh;
    out := before.(read := 0);
    var authenticated := false;
    var start := 0;
    FaithfulStart(out, before, c.model);
    if matched { LastGuarded(c, before); }
    while start < before.total
      invariant start % 4 == 0 && start < before.total + 4
      invariant card.Valid() && card.model == c.model && card.cfg == c.cfg
      invariant Faithful(out, before, c.model)
      invariant out.read == if start < before.total then start else before.total
      invariant matched && start < before.total ==> !authenticated && card.Value() == c
      invariant matched && start < before.total && Guarded(c.model) ==> start <= FirstGuarded(c.model)
      invariant matched && start >= before.total ==> Reach(c.model) == before.total
    {
      FaithfulShape(out, before, c.model);
      LastChunk(start, before.total);
      if matched { StopsIff(c, out, before); }
      ghost var mid := out;
      var stop;
      stop, out, authenticated := ReadChunk(card, out, start, authenticated, rnd);
      if stop { return; }
      FaithfulShape(mid, before, c.model);
      ChunkFaithful(out, mid, before, c.model, start);
      ChunkRead(out, mid, start, FourPages(c.model, start));
      start := start + 4;
    }
    FaithfulShape(out, before, c.model);
  }

  // ---------- copying a tag ----------

  /** A tag of a known kind, read to the end, saved and loaded, answers every READ as the original. */
  lemma CopyReads(c: Card, out: Data, before: Data, copy: Card, start: nat)
    requires Fresh(c, before) && Faithful(out, before, c.model) && out.read == out.total && Proper(out)
    requires c.model.kind != Unknown && Loaded(copy) && copy.model == Restored(out)
    ensures ReadReply(copy, start) == ReadReply(c, start)
  {
    KindBack(out.kind);
    hide KindOf, VariantOf, PagesTotal;
    SamePages(out, c.model);
    assert copy.model.kind == c.model.kind && copy.model.total == c.model.total;
    hide Restored, Paged;
    SameConfig(copy.model, c.model);
    hide ParseConfig, Fresh, Faithful;
    SameFour(copy.model, c.model, start);
    hide FourPages;
  }

  lemma KindBack(kind: Kind)
    requires kind != Unknown
    ensures KindOf(PagesTotal(kind)) == kind && PagesTotal(kind) <= MaxPages
  {
  }

  predicate Agree(a: Data, b: Data)
    requires WellFormed(a) && WellFormed(b)
  { a.total == b.total && forall p :: 0 <= p < a.total ==> a.pages[p] == b.pages[p] }

  lemma SamePages(out: Data, model: Data)
    requires Proper(out) && WellFormed(model) && out.read == out.total == model.total
    requires forall p :: 0 <= p < out.read ==> out.pages[p] == Slot(model, p)
    ensures Agree(Restored(out), model)
  {
    hide KindOf, VariantOf;
  }

  lemma SameConfig(a: Data, b: Data)
    requires WellFormed(a) && WellFormed(b) && Agree(a, b) && a.kind == b.kind && a.read == a.total && b.read == b.total
    ensures ParseConfig(a) == ParseConfig(b)
  {
  }

  lemma SameFour(a: Data, b: Data, start: nat)
    requires WellFormed(a) && WellFormed(b) && Agree(a, b)
    ensures FourPages(a, start) == FourPages(b, start)
  {
    assert forall p: nat :: Slot(a, p) == Slot(b, p);
  }

  /** The copy of a password tag whose settings were not reached is open: it serves the pages that
      were read, and zeros for all others, to everyone. */
  lemma PartialCopyOpen(out: Data, copy: Card, start: nat)
    requires Proper(out) && HasPassword(out.kind) && out.total == PagesTotal(out.kind) && out.read <= out.total - 3
    requires forall p :: out.read <= p < MaxPages ==> out.pages[p] == ZeroPage
    requires Loaded(copy) && copy.model == Restored(out)
    ensures copy.auth == Success && ReadReply(copy, start) == FourPages(out, start)
  {
    KindBack(out.kind);
    hide KindOf, VariantOf;
    assert copy.model.pages[out.total - 3] == ZeroPage;
    NoHighBit(copy.model.pages[out.total - 3][0]);
    SameFour(copy.model, out, start);
    hide FourPages;
  }

  lemma NoHighBit(b: bv8)
    requires b == 0
    ensures b & 0x80 == 0
  {
  }

  lemma ShortMeansPassword(d: Data)
    requires WellFormed(d) && Reach(d) < d.total
    ensures HasPassword(d.kind)
  {
  }

  /** A short read of a password tag stops before the page with PROT. */
  lemma ShortOfSettings(d: Data)
    requires WellFormed(d) && HasPassword(d.kind) && d.total == PagesTotal(d.kind) && Reach(d) < d.total
    ensures Reach(d) <= d.total - 3
  {
    hide ParseConfig;
  }

  /** Reading a tag, saving what was read and loading it elsewhere.  A tag of known kind that was read
      to the end is answered for alike; one that was not has lost its protection with its last pages. */
  method CopyTag(card: Listener, before: Data, rnd: seq<bv8>, outMax: nat, other: Listener) returns (ok: bool)
    requires card.Valid() && other.Valid() && card != other && Proper(before) && |rnd| == 8
    modifies card, other
    ensures card.model == old(card.model) && other.Valid()
    ensures ok <==> before.total > 0 && 8 + 4 * before.total + |before.version| + |before.signature|
                                        + 3 * |before.counters| + |before.tearing| <= outMax
    ensures Fresh(old(card.Value()), before) && card.model.kind != Unknown && ok && Reach(card.model) == card.model.total ==>
              forall start: nat :: ReadReply(other.Value(), start) == ReadReply(old(card.Value()), start)
    ensures Fresh(old(card.Value()), before) && ok && Reach(card.model) < card.model.total ==>
              other.auth == Success &&
              forall p: nat :: p < MaxPages ==>
                Slot(other.model, p) == if p < Reach(card.model) then card.model.pages[p] else ZeroPage
  {
    hide ReadReply, Restored, Deserialize, Loaded, Image, Reach;
    ghost var c := card.Value();
    var out := ReadPages(card, before, rnd);
    ImageLength(out);
    var blob := Save(out, outMax);
    if blob.None? { return false; }
    RoundTrip(out, outMax, other.model);
    ok := other.LoadImage(blob.value);
    if Fresh(c, before) {
      if Reach(c.model) == c.model.total {
        if c.model.kind != Unknown {
          forall start: nat ensures ReadReply(other.Value(), start) == ReadReply(c, start) {
            CopyReads(c, out, before, other.Value(), start);
          }
        }
      } else {
        PartlyCopied(c, out, before, other.Value());
      }
    }
  }

  lemma PartlyCopied(c: Card, out: Data, before: Data, copy: Card)
    requires Fresh(c, before) && Proper(out) && Faithful(out, before, c.model) && out.read == Reach(c.model) < c.model.total
    requires Loaded(copy) && copy.model == Restored(out)
    ensures copy.auth == Success
    ensures forall p: nat :: p < MaxPages ==> Slot(copy.model, p) == if p < out.read then c.model.pages[p] else ZeroPage
  {
    hide ParseConfig, KindOf, VariantOf, Reach;
    ShortMeansPassword(c.model);
    ShortOfSettings(c.model);
    PartialCopyOpen(out, copy, 0);
  }
}
