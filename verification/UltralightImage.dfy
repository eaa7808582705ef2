/** The Ultralight data model (ultralight.c): the stored image and the protection settings in it.

    Saving and loading an image is a round trip for a completely read tag, and exactly for those: what
    was not read comes back as zero pages that count as read.  A refused image has already replaced
    the old one unless its first four bytes were refused. */
module UltralightImage {
  import opened Bytes
  import opened Words
  import opened Octets

  // ---------- data ----------

  datatype Kind = Origin | Ul11 | Ul21 | Ntag203 | Ntag213 | Ntag215 | Ntag216 | UltralightC | Unknown

  const MaxPages := 256

  type Page = p: seq<bv8> | |p| == 4 witness [0, 0, 0, 0]

  const ZeroPage: Page := [0, 0, 0, 0]

  const NoVariant: bv8 := 0xFF

  function Blank(n: nat): seq<Page> { seq(n, i => ZeroPage) }

  /** ultralight_data_t; an absent version or signature is empty. */
  datatype Data = Data(pages: seq<Page>, total: nat, read: nat, kind: Kind, version: seq<bv8>,
                       signature: seq<bv8>, counters: seq<seq<bv8>>, tearing: seq<bv8>, variant: bv8)

  predicate WellFormed(d: Data) {
    |d.pages| == MaxPages && d.total <= MaxPages && d.read <= d.total
  }

  function ResetData(): (d: Data)
    ensures WellFormed(d)
  { Data(Blank(MaxPages), 0, 0, Unknown, [], [], [], [], NoVariant) }

  function PagesTotal(kind: Kind): nat {
    match kind
    case Origin => 16
    case Ul11 => 20
    case Ul21 => 41
    case Ntag203 => 42
    case Ntag213 => 45
    case Ntag215 => 135
    case Ntag216 => 231
    case UltralightC => 48
    case Unknown => 0
  }

  predicate HasPassword(kind: Kind) { kind.Ntag213? || kind.Ntag215? || kind.Ntag216? }

  // ---------- protection ----------

  datatype Config = Config(auth0: nat, prot: bool, authlim: nat, pwd: seq<bv8>, pack: seq<bv8>, valid: bool)

  const NoConfig := Config(0, false, 0, ZeroPage, [0, 0], false)

  /** ultralight_parse_config: AUTH0, ACCESS, PWD and PACK are the last four pages. */
  function ParseConfig(d: Data): (c: Config)
    requires WellFormed(d)
    ensures |c.pwd| == 4 && |c.pack| == 2
  {
    if !HasPassword(d.kind) || d.total < 5 || d.read <= d.total - 4 then NoConfig
    else
      Config(Num(d.pages[d.total - 4][3]), d.pages[d.total - 3][0] & 0x80 != 0, Num(d.pages[d.total - 3][0] & 0x07),
             d.pages[d.total - 2], d.pages[d.total - 1][..2], true)
  }

  predicate ProtectionOn(c: Config) { c.valid && c.auth0 != 255 }

  predicate NeedsAuth(c: Config, page: nat) { ProtectionOn(c) && c.prot && page >= c.auth0 }

  function KindOf(total: nat): Kind {
    match total
    case 16 => Origin
    case 20 => Ul11
    case 41 => Ul21
    case 42 => Ntag203
    case 45 => Ntag213
    case 48 => UltralightC
    case 135 => Ntag215
    case 231 => Ntag216
    case _ => Unknown
  }

  function VariantOf(kind: Kind): bv8 {
    match kind
    case Ul11 => 1
    case Ul21 => 2
    case Origin => 0
    case _ => NoVariant
  }

  // ---------- chunks of one width ----------

  predicate Wide(chunks: seq<seq<bv8>>, w: nat) { forall i :: 0 <= i < |chunks| ==> |chunks[i]| == w }

  function Glue(chunks: seq<seq<bv8>>): seq<bv8> {
    if chunks == [] then [] else Glue(chunks[..|chunks| - 1]) + chunks[|chunks| - 1]
  }

  /** The length of n chunks. */
  function Span(n: nat, w: nat): nat { if n == 0 then 0 else Span(n - 1, w) + w }

  lemma {:induction false} Inside(i: nat, n: nat, w: nat)
    requires i < n
    ensures Span(i, w) + w == Span(i + 1, w) <= Span(n, w)
    decreases n
  {
    if i < n - 1 { Inside(i, n - 1, w); }
  }

  lemma {:induction false} SpanIs(n: nat)
    ensures Span(n, 3) == 3 * n && Span(n, 4) == 4 * n
  {
    if n > 0 { SpanIs(n - 1); }
  }

  function Split(s: seq<bv8>, w: nat, n: nat): (chunks: seq<seq<bv8>>)
    requires Span(n, w) <= |s|
    ensures |chunks| == n && Wide(chunks, w)
  { if n == 0 then [] else Split(s, w, n - 1) + [s[Span(n - 1, w)..Span(n, w)]] }

  lemma {:induction false} SplitAt(s: seq<bv8>, w: nat, n: nat, i: nat)
    requires i < n && Span(n, w) <= |s|
    ensures Span(i, w) + w == Span(i + 1, w) <= |s| && Split(s, w, n)[i] == s[Span(i, w)..Span(i, w) + w]
    decreases n
  {
    Inside(i, n, w);
    if i < n - 1 { SplitAt(s, w, n - 1, i); }
  }

  lemma {:induction false} GlueAt(chunks: seq<seq<bv8>>, w: nat, i: nat)
    requires Wide(chunks, w)
    ensures |Glue(chunks)| == Span(|chunks|, w)
    ensures i < |chunks| ==> Span(i, w) + w <= |Glue(chunks)| && Glue(chunks)[Span(i, w)..Span(i, w) + w] == chunks[i]
    decreases |chunks|
  {
    if chunks != [] {
      var n := |chunks| - 1;
      GlueAt(chunks[..n], w, i);
      if i < n {
        var at := Span(i, w);
        Inside(i, n, w);
        assert chunks[..n][i] == chunks[i];
        assert Glue(chunks)[at..at + w] == Glue(chunks[..n])[at..at + w];
      }
    }
  }

  /** Cutting what was glued, with anything behind it, gives the chunks back. */
  lemma SplitGlue(chunks: seq<seq<bv8>>, w: nat, rest: seq<bv8>)
    requires Wide(chunks, w)
    ensures |Glue(chunks)| == Span(|chunks|, w)
    ensures Split(Glue(chunks) + rest, w, |chunks|) == chunks
  {
    hide Glue, Split, Span;
    GlueAt(chunks, w, 0);
    var s := Glue(chunks) + rest;
    forall i | 0 <= i < |chunks| ensures Split(s, w, |chunks|)[i] == chunks[i] {
      GlueAt(chunks, w, i);
      SplitAt(s, w, |chunks|, i);
      var at := Span(i, w);
      assert s[at..at + w] == Glue(chunks)[at..at + w];
    }
  }

  // ---------- writing ----------

  /** Sizes of the parts that have one. */
  predicate Proper(d: Data) {
    && WellFormed(d) && (|d.version| == 0 || |d.version| == 8) && (|d.signature| == 0 || |d.signature| == 32)
    && |d.counters| <= 3 && Wide(d.counters, 3) && |d.tearing| <= 3
  }

  function Flagged(s: seq<bv8>): seq<bv8> { if s == [] then [0] else [1] + s }

  function Header(d: Data): (h: seq<bv8>)
    requires WellFormed(d)
    ensures |h| == 4
  { [1, d.variant, Octet(d.total % 256), Octet(d.total / 256)] }

  function Tail(d: Data): seq<bv8>
    requires Proper(d)
  {
    Flagged(d.version) + (Flagged(d.signature) + (([Octet(|d.counters|)] + Glue(d.counters)) + ([Octet(|d.tearing|)] + d.tearing)))
  }

  function Image(d: Data): seq<bv8>
    requires Proper(d)
  { Header(d) + (Glue(d.pages[..d.total]) + Tail(d)) }

  /** ultralight_serialize. */
  function Serialize(d: Data, outMax: nat): Option<seq<bv8>>
    requires Proper(d)
  { if d.total == 0 || |Image(d)| > outMax then None else Some(Image(d)) }

  // ---------- reading ----------

  datatype Part<T> = Part(value: T, rest: seq<bv8>) | Short

  /** The result of reading an image, and the data it leaves behind even when it fails. */
  datatype Loading = Loading(data: Data, ok: bool)

  function TakeFlagged(s: seq<bv8>, w: nat): Part<seq<bv8>> {
    if s == [] then Short
    else if s[0] == 0 then Part([], s[1..])
    else if 1 + w > |s| then Short
    else Part(s[1..1 + w], s[1 + w..])
  }

  function TakeCounters(s: seq<bv8>): Part<seq<seq<bv8>>> {
    if s == [] || Num(s[0]) > 3 || 1 + Num(s[0]) * 3 > |s| then Short
    else
      var n := Num(s[0]);
      SpanIs(n);
      Part(Split(s[1..], 3, n), s[1 + n * 3..])
  }

  function TakeTearing(s: seq<bv8>): Part<seq<bv8>> {
    if s == [] || Num(s[0]) > 3 || 1 + Num(s[0]) > |s| then Short
    else Part(s[1..1 + Num(s[0])], s[1 + Num(s[0])..])
  }

  function ReadTail(d: Data, s: seq<bv8>): (l: Loading)
    requires WellFormed(d)
    ensures WellFormed(l.data)
  {
    var version := TakeFlagged(s, 8);
    if version.Short? then Loading(d, false)
    else
      var d1 := d.(version := version.value);
      var signature := TakeFlagged(version.rest, 32);
      if signature.Short? then Loading(d1, false)
      else
        var d2 := d1.(signature := signature.value);
        var counters := TakeCounters(signature.rest);
        if counters.Short? then Loading(d2, false)
        else
          var d3 := d2.(counters := counters.value);
          var tearing := TakeTearing(counters.rest);
          if tearing.Short? then Loading(d3, false)
          else Loading(d3.(tearing := tearing.value, read := d.total), true)
  }

  /** The image with its pages in place; nothing counts as read yet. */
  function Paged(variant: bv8, total: nat, pages: seq<Page>): (d: Data)
    requires total == |pages| <= MaxPages
    ensures WellFormed(d)
  {
    ResetData().(total := total, kind := KindOf(total), pages := pages + Blank(MaxPages - total),
                 variant := if variant == NoVariant then VariantOf(KindOf(total)) else variant)
  }

  function PagesAt(s: seq<bv8>, total: nat): (pages: seq<Page>)
    requires total * 4 <= |s|
    ensures |pages| == total
  { SpanIs(total); Split(s, 4, total) }

  predicate HeaderOk(blob: seq<bv8>) { |blob| >= 4 && blob[0] == 1 }

  /** ultralight_deserialize. */
  function Deserialize(d: Data, blob: seq<bv8>): (l: Loading)
    requires WellFormed(d)
    ensures WellFormed(l.data)
  {
    if !HeaderOk(blob) then Loading(d, false)
    else
      var total := Num(blob[2]) + 256 * Num(blob[3]);
      var blank := ResetData().(variant := blob[1]);
      if total == 0 || total > MaxPages || |blob| < 4 + 4 * total then Loading(blank, false)
      else ReadTail(Paged(blob[1], total, PagesAt(blob[4..], total)), blob[4 + 4 * total..])
  }

  /** A refused image leaves the old one in place exactly when its header was refused: otherwise
      nothing counts as read any more. */
  lemma RefusedKeepsIff(d: Data, blob: seq<bv8>)
    requires WellFormed(d) && d.read > 0 && !Deserialize(d, blob).ok
    ensures Deserialize(d, blob).data == d <==> !HeaderOk(blob)
    ensures HeaderOk(blob) ==> Deserialize(d, blob).data.read == 0
  {
    hide Split, TakeFlagged, TakeCounters, TakeTearing, KindOf;
  }

  /** In an accepted image every page counts as read, and its kind follows from their number. */
  lemma LoadedWhole(d: Data, blob: seq<bv8>)
    requires WellFormed(d) && Deserialize(d, blob).ok
    ensures var r := Deserialize(d, blob).data; r.read == r.total > 0 && r.kind == KindOf(r.total)
  {
    hide Split, TakeFlagged, TakeCounters, TakeTearing, KindOf;
  }

  lemma LoadedPages(d: Data, blob: seq<bv8>)
    requires WellFormed(d) && Deserialize(d, blob).ok
    ensures var m := Deserialize(d, blob).data;
            && 0 < m.total <= MaxPages && |blob| >= 4 + 4 * m.total && m.kind == KindOf(m.total)
            && m.total == Num(blob[2]) + 256 * Num(blob[3])
            && m.pages[..m.total] == PagesAt(blob[4..], m.total)
  {
    hide Split, TakeFlagged, TakeCounters, TakeTearing, KindOf;
  }

  /** Where the pages of an accepted image come from. */
  lemma LoadedPage(d: Data, blob: seq<bv8>, p: nat)
    requires WellFormed(d) && Deserialize(d, blob).ok && p < Deserialize(d, blob).data.total
    ensures |blob| >= 8 + 4 * p && Deserialize(d, blob).data.pages[p] == blob[4 + 4 * p..8 + 4 * p]
  {
    hide Deserialize, Split, Span, Num, KindOf, PagesAt;
    LoadedPages(d, blob);
    var m := Deserialize(d, blob).data;
    PageAt(blob[4..], m.total, p);
    assert m.pages[p] == m.pages[..m.total][p];
    assert blob[4..][4 * p..4 * p + 4] == blob[4 + 4 * p..8 + 4 * p];
  }

  lemma PageAt(s: seq<bv8>, total: nat, p: nat)
    requires total * 4 <= |s| && p < total
    ensures PagesAt(s, total)[p] == s[4 * p..4 * p + 4]
  {
    hide Split, Span;
    SpanIs(p);
    SpanIs(total);
    SplitAt(s, 4, total, p);
  }

  /** The variant stored, or if that is unknown the one that goes with the page count. */
  lemma LoadedVariant(d: Data, blob: seq<bv8>)
    requires WellFormed(d) && Deserialize(d, blob).ok
    ensures var m := Deserialize(d, blob).data;
            |blob| > 1 && m.variant == if blob[1] != 0xFF then blob[1]
                                       else if m.total == 16 then 0 else if m.total == 20 then 1 else if m.total == 41 then 2 else 0xFF
  {
    hide Split, TakeFlagged, TakeCounters, TakeTearing;
  }

  /** The settings are known exactly on a password tag of at least five pages once AUTH0 has been read. */
  lemma SettingsKnownIff(d: Data)
    requires WellFormed(d)
    ensures ParseConfig(d).valid <==> HasPassword(d.kind) && d.total >= 5 && d.read >= d.total - 3
  {
  }

  /** The part behind the pages: any non-zero flag announces a version or a signature, and at most three
      counters and three tearing flags are taken; what follows is not looked at. */
  lemma TailAccepted(d: Data, f: bv8, version: seq<bv8>, g: bv8, signature: seq<bv8>, n: bv8, counters: seq<bv8>,
                     m: bv8, tearing: seq<bv8>, extra: seq<bv8>)
    requires WellFormed(d) && |version| == (if f == 0 then 0 else 8) && |signature| == (if g == 0 then 0 else 32)
    requires |counters| == 3 * Num(n) && |tearing| == Num(m)
    ensures var l := ReadTail(d, [f] + version + ([g] + signature + ([n] + counters + ([m] + tearing + extra))));
            && (l.ok <==> Num(n) <= 3 && Num(m) <= 3)
            && (l.ok ==> l.data.version == version && l.data.signature == signature && l.data.tearing == tearing && l.data.read == d.total)
  {
    hide Num, TakeFlagged, TakeCounters, TakeTearing;
    var s4 := [m] + tearing + extra;
    var s3 := [n] + counters + s4;
    FlagTaken(f, version, 8, [g] + signature + s3);
    FlagTaken(g, signature, 32, s3);
    CountersTaken(n, counters, s4);
    TearingTaken(m, tearing, extra);
  }

  lemma CountersTaken(n: bv8, counters: seq<bv8>, rest: seq<bv8>)
    requires |counters| == 3 * Num(n)
    ensures var t := TakeCounters([n] + counters + rest);
            if Num(n) <= 3 then t.Part? && t.rest == rest else t.Short?
  {
    hide Num, Split;
    var s := [n] + counters + rest;
    assert s[1 + Num(n) * 3..] == rest;
  }

  lemma TearingTaken(m: bv8, tearing: seq<bv8>, rest: seq<bv8>)
    requires |tearing| == Num(m)
    ensures TakeTearing([m] + tearing + rest) == if Num(m) <= 3 then Part(tearing, rest) else Short
  {
    hide Num;
    var s := [m] + tearing + rest;
    assert s[1..1 + Num(m)] == tearing && s[1 + Num(m)..] == rest;
  }

  lemma FlagTaken(f: bv8, x: seq<bv8>, w: nat, rest: seq<bv8>)
    requires |x| == if f == 0 then 0 else w
    ensures TakeFlagged([f] + x + rest, w) == Part(x, rest)
  {
    var s := [f] + x + rest;
    if f == 0 { assert s[1..] == rest; } else { assert s[1..1 + w] == x && s[1 + w..] == rest; }
  }

  // ---------- round trip ----------

  lemma FlaggedBack(x: seq<bv8>, w: nat, rest: seq<bv8>)
    requires |x| == 0 || |x| == w
    ensures TakeFlagged(Flagged(x) + rest, w) == Part(x, rest)
  {
    var s := Flagged(x) + rest;
    if x == [] { assert s[1..] == rest; } else { assert s[1..1 + w] == x && s[1 + w..] == rest; }
  }

  lemma CountersBack(n: bv8, x: seq<seq<bv8>>, rest: seq<bv8>)
    requires Num(n) == |x| <= 3 && Wide(x, 3)
    ensures TakeCounters(([n] + Glue(x)) + rest) == Part(x, rest)
  {
    hide Num, Glue, Span, Split;
    var body := Glue(x) + rest;
    var s := ([n] + Glue(x)) + rest;
    SpanIs(|x|);
    SplitGlue(x, 3, rest);
    assert s == [n] + body;
    assert s[1..] == body && s[1 + |x| * 3..] == body[|x| * 3..] == rest;
  }

  lemma TearingBack(n: bv8, x: seq<bv8>)
    requires Num(n) == |x| <= 3
    ensures TakeTearing([n] + x) == Part(x, [])
  {
    hide Num;
    var s := [n] + x;
    assert s[1..1 + |x|] == x && s[1 + |x|..] == [];
  }

  lemma TailBack(d: Data, into: Data)
    requires Proper(d) && WellFormed(into)
    ensures ReadTail(into, Tail(d)) ==
            Loading(into.(version := d.version, signature := d.signature, counters := d.counters,
                          tearing := d.tearing, read := into.total), true)
  {
    hide TakeFlagged, TakeCounters, TakeTearing, Flagged, Glue, Octet;
    var tearing := [Octet(|d.tearing|)] + d.tearing;
    var counters := ([Octet(|d.counters|)] + Glue(d.counters)) + tearing;
    FlaggedBack(d.version, 8, Flagged(d.signature) + counters);
    FlaggedBack(d.signature, 32, counters);
    CountersBack(Octet(|d.counters|), d.counters, tearing);
    TearingBack(Octet(|d.tearing|), d.tearing);
  }

  lemma SizeBack(total: nat)
    requires total <= MaxPages
    ensures Num(Octet(total % 256)) + 256 * Num(Octet(total / 256)) == total
  {
  }

  /** What comes back from a saved image. */
  function Restored(d: Data): Data
    requires Proper(d)
  {
    Paged(d.variant, d.total, d.pages[..d.total])
    .(version := d.version, signature := d.signature, counters := d.counters, tearing := d.tearing, read := d.total)
  }

  /** Every saved image is accepted, whatever was loaded before. */
  lemma RoundTrip(d: Data, outMax: nat, into: Data)
    requires Proper(d) && WellFormed(into) && Serialize(d, outMax).Some?
    ensures Deserialize(into, Serialize(d, outMax).value) == Loading(Restored(d), true)
  {
    hide Num, Octet, Glue, Span, Split, Tail, ReadTail, KindOf;
    var blob, pages := Image(d), d.pages[..d.total];
    SizeBack(d.total);
    SpanIs(d.total);
    SplitGlue(pages, 4, Tail(d));
    assert blob[4..] == Glue(pages) + Tail(d);
    assert blob[4 + 4 * d.total..] == Tail(d);
    TailBack(d, Paged(d.variant, d.total, pages));
  }

  /** And it is the image that was saved exactly when that was read completely, its kind and variant
      are those of its page count, and nothing lies past its end. */
  lemma RestoredIff(d: Data)
    requires Proper(d)
    ensures Restored(d) == d <==>
            && d.read == d.total && d.kind == KindOf(d.total)
            && (d.variant == NoVariant ==> VariantOf(d.kind) == NoVariant)
            && forall p :: d.total <= p < MaxPages ==> d.pages[p] == ZeroPage
  {
    hide KindOf, VariantOf;
    var pages := d.pages[..d.total] + Blank(MaxPages - d.total);
    if forall p :: d.total <= p < MaxPages ==> d.pages[p] == ZeroPage {
      assert pages == d.pages;
    } else {
      var p :| d.total <= p < MaxPages && d.pages[p] != ZeroPage;
      assert pages[p] == ZeroPage;
    }
  }

  /** A tag of sixteen pages of which four were read: it comes back with twelve zero pages as read. */
  lemma PartReadLost(first: seq<Page>)
    requires |first| == 4
    ensures var d := ResetData().(kind := Origin, total := 16, read := 4, pages := first + Blank(252), variant := 0);
            && Proper(d) && Restored(d) == d.(read := 16)
            && Serialize(d, 72).Some? && Deserialize(ResetData(), Serialize(d, 72).value).data != d
  {
    hide Tail, Glue, Octet;
    var d := ResetData().(kind := Origin, total := 16, read := 4, pages := first + Blank(252), variant := 0);
    assert d.pages[..16] + Blank(240) == d.pages;
    ImageLength(d);
    hide Image;
    RoundTrip(d, 72, ResetData());
  }

  /** Four bytes that announce no pages are refused, and the loaded image is gone. */
  lemma RefusedWipes(d: Data)
    requires WellFormed(d)
    ensures Deserialize(d, [1, NoVariant, 0, 0]) == Loading(ResetData(), false)
  {
    assert Num(0) == 0;
  }

  /** The stored bytes: version, variant and page count, the pages, then version and signature behind a
      flag each, counters and tearing flags behind their numbers. */
  lemma ImageBytes(d: Data, p: nat)
    requires Proper(d)
    ensures var b, n := Image(d), d.total;
            && |b| >= 4 + 4 * n && b[0] == 1 && b[1] == d.variant && Num(b[2]) + 256 * Num(b[3]) == n
            && (p < n ==> b[4 + 4 * p..8 + 4 * p] == d.pages[p])
            && b[4 + 4 * n..] == Tail(d)
  {
    hide Octet, Num, Glue, Span, Tail;
    SizeBack(d.total);
    SpanIs(d.total);
    SpanIs(p);
    var pages, b := d.pages[..d.total], Image(d);
    GlueAt(pages, 4, p);
    assert b[4..] == Glue(pages) + Tail(d);
    if p < d.total {
      assert b[4 + 4 * p..8 + 4 * p] == Glue(pages)[4 * p..4 * p + 4];
      assert pages[p] == d.pages[p];
    }
  }

  lemma TailBytes(d: Data)
    requires Proper(d)
    ensures Tail(d) == (if d.version == [] then [0] else [1] + d.version) + (if d.signature == [] then [0] else [1] + d.signature)
                       + [Octet(|d.counters|)] + Glue(d.counters) + [Octet(|d.tearing|)] + d.tearing
  {
    hide Octet, Glue;
  }

  // ---------- the code ----------

  /** The loops that copy pages and counters. */
  method CopyAll(chunks: seq<seq<bv8>>) returns (s: seq<bv8>)
    ensures s == Glue(chunks)
  {
    s := [];
    for i := 0 to |chunks|
      invariant s == Glue(chunks[..i])
    {
      assert chunks[..i + 1][..i] == chunks[..i];
      s := s + chunks[i];
    }
    assert chunks[..|chunks|] == chunks;
  }

  lemma ImageLength(d: Data)
    requires Proper(d)
    ensures |Image(d)| == 4 + d.total * 4 + 1 + |d.version| + 1 + |d.signature| + 1 + |d.counters| * 3 + 1 + |d.tearing|
  {
    hide Octet, Glue, Span;
    SpanIs(d.total);
    SpanIs(|d.counters|);
    GlueAt(d.pages[..d.total], 4, 0);
    GlueAt(d.counters, 3, 0);
  }

  /** ultralight_serialize. */
  method Save(d: Data, outMax: nat) returns (r: Option<seq<bv8>>)
    requires Proper(d)
    ensures r == Serialize(d, outMax)
  {
    hide Octet, Num, Glue;
    ImageLength(d);
    if d.total == 0 { return None; }
    var need := 4 + d.total * 4 + 1;
    if |d.version| > 0 { need := need + |d.version|; }
    need := need + 1;
    if |d.signature| > 0 { need := need + |d.signature|; }
    need := need + 1 + |d.counters| * 3;
    need := need + 1 + |d.tearing|;
    if outMax < need { return None; }
    var header := [1, d.variant, Octet(d.total % 256), Octet(d.total / 256)];
    var pages := CopyAll(d.pages[..d.total]);
    var version := if |d.version| > 0 then [1] + d.version else [0];
    var signature := if |d.signature| > 0 then [1] + d.signature else [0];
    var counters := CopyAll(d.counters);
    counters := [Octet(|d.counters|)] + counters;
    return Some(header + (pages + (version + (signature + (counters + ([Octet(|d.tearing|)] + d.tearing))))));
  }

  /** ultralight_deserialize, with its loop over the pages. */
  method Load(d: Data, blob: seq<bv8>) returns (l: Loading)
    requires WellFormed(d)
    ensures l == Deserialize(d, blob)
  {
    hide ReadTail, KindOf, Num, Span, Split;
    if |blob| < 4 { return Loading(d, false); }
    if blob[0] != 1 { return Loading(d, false); }
    var out := ResetData().(variant := blob[1]);
    var total := Num(blob[2]) + 256 * Num(blob[3]);
    if total == 0 || total > MaxPages { return Loading(out, false); }
    if |blob| < 4 + 4 * total { return Loading(out, false); }
    var pages: seq<Page> := [];
    ghost var all := PagesAt(blob[4..], total);
    for i := 0 to total
      invariant pages == all[..i]
    {
      SpanIs(i);
      SpanIs(total);
      SplitAt(blob[4..], 4, total, i);
      assert blob[4..][4 * i..4 * i + 4] == blob[4 + 4 * i..8 + 4 * i];
      pages := pages + [blob[4 + 4 * i..8 + 4 * i]];
    }
    assert all[..total] == all;
    out := Paged(blob[1], total, pages);
    l := ReadTail(out, blob[4 + 4 * total..]);
  }
}
