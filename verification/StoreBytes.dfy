/** The bytes of a card envelope, which envelopes are accepted and what any of them hands out, in either
    version of the format. */
module StoreBytes {
  import opened Bytes
  import Octets
  import Words
  import Crc16
  import CrcDivision
  import opened Store

  // ---------- entries ----------

  predicate BitOf(b: byte, i: nat) { b as nat / (if i == 0 then 1 else if i == 1 then 2 else if i == 2 then 4 else 8) % 2 == 1 }

  /** NDEF, DESFire, Ultralight, EMV and Aliro images can be emulated as they are. */
  predicate Complete(id: byte) { id == 0x01 || id == 0x02 || id == 0x03 || id == 0x04 || id == 0x05 }

  /** An entry: the kind, its flags, the length with its low byte first, the body.  The flags say captured
      by a reader, never hand-made, and complete for the kinds that are; no other is set. */
  lemma EntryBytes(id: byte, body: seq<byte>)
    requires |body| < 65536
    ensures var e := Entry(id, body);
            && |e| == 4 + |body| && e[0] == id && e[2] as nat + 256 * e[3] as nat == |body| && e[4..] == body
            && BitOf(e[1], 0) && !BitOf(e[1], 1) && (BitOf(e[1], 2) <==> Complete(id)) && e[1] < 8
  {
    Le16Back(|body|);
  }

  /** The bytes of the entries before service k. */
  function Before(svcs: seq<Service>, k: nat): nat
    requires k <= |svcs|
  {
    if k == 0 then 0
    else Before(svcs, k - 1) + if Skipped(svcs[k - 1]) || !svcs[k - 1].saves.Gives? then 0 else 4 + |svcs[k - 1].saves.body|
  }

  predicate NoneFails(svcs: seq<Service>) { forall i :: 0 <= i < |svcs| && !Skipped(svcs[i]) ==> svcs[i].saves.Gives? }

  lemma {:induction false} EntriesFrom(svcs: seq<Service>, k: nat)
    requires k <= |svcs| && NoneFails(svcs)
    ensures Before(svcs, k) <= |Entries(svcs, 0)| && Entries(svcs, 0)[Before(svcs, k)..] == Entries(svcs, k)
    decreases k
  {
    if k > 0 {
      hide Entry;
      EntriesFrom(svcs, k - 1);
      var all, at := Entries(svcs, 0), Before(svcs, k - 1);
      if !Skipped(svcs[k - 1]) {
        var n := 4 + |svcs[k - 1].saves.body|;
        assert all[at..][n..] == all[at + n..];
      }
    }
  }

  /** Every service that serialised has its entry at the place the ones before it leave. */
  lemma EntryPlace(svcs: seq<Service>, k: nat)
    requires k < |svcs| && NoneFails(svcs) && !Skipped(svcs[k])
    ensures var at, e := Before(svcs, k), Entry(svcs[k].id, svcs[k].saves.body);
            at + |e| <= |Entries(svcs, 0)| && Entries(svcs, 0)[at..at + |e|] == e
  {
    hide Entry;
    EntriesFrom(svcs, k);
    EntriesFrom(svcs, |svcs|);
    var all, at, e := Entries(svcs, 0), Before(svcs, k), Entry(svcs[k].id, svcs[k].saves.body);
    assert all[at..][..|e|] == e;
    assert all[at..at + |e|] == all[at..][..|e|];
  }

  lemma {:induction false} PackIff(svcs: seq<Service>, k: nat, payload: seq<byte>, blobMax: nat)
    requires k <= |svcs| && 8 + |payload| <= blobMax
    ensures Pack(svcs[k..], payload, blobMax).Packed? <==>
            (forall i :: k <= i < |svcs| && !Skipped(svcs[i]) ==> svcs[i].saves.Gives?) && 8 + |payload| + |Entries(svcs, k)| <= blobMax
    ensures Pack(svcs[k..], payload, blobMax).IoError? ==> exists i :: k <= i < |svcs| && !Skipped(svcs[i]) && svcs[i].saves.Fails?
    ensures Pack(svcs[k..], payload, blobMax).NoMemory? ==> 8 + |payload| + |Entries(svcs, k)| > blobMax
    decreases |svcs| - k
  {
    if k < |svcs| {
      assert svcs[k..][0] == svcs[k] && svcs[k..][1..] == svcs[k + 1..];
      if Skipped(svcs[k]) {
        PackIff(svcs, k + 1, payload, blobMax);
      } else if svcs[k].saves.Gives? && 8 + |payload| + 4 + |svcs[k].saves.body| <= blobMax {
        PackIff(svcs, k + 1, payload + Entry(svcs[k].id, svcs[k].saves.body), blobMax);
      }
    }
  }

  /** A save produces a blob exactly when no callback fails and the entries fit; a failing callback and
      lack of room are told apart. */
  lemma SaveIff(svcs: seq<Service>, blobMax: nat)
    requires blobMax >= 512
    ensures Save(svcs, blobMax).Packed? <==> NoneFails(svcs) && 8 + |Entries(svcs, 0)| <= blobMax
    ensures Save(svcs, blobMax).IoError? ==> !NoneFails(svcs)
    ensures Save(svcs, blobMax).NoMemory? ==> 8 + |Entries(svcs, 0)| > blobMax
  {
    hide Entries, Pack;
    assert svcs[0..] == svcs;
    PackIff(svcs, 0, [], blobMax);
  }

  // ---------- the envelope ----------

  /** "NF", version 2, a zero, the payload's length with its low byte first, the payload and a checksum. */
  lemma EnvelopeBytes(payload: seq<byte>)
    requires |payload| < 65536
    ensures var b := Envelope(payload);
            && |b| == 8 + |payload| && b[..4] == [0x4E, 0x46, 0x02, 0x00]
            && b[4] as nat + 256 * b[5] as nat == |payload| && b[6..6 + |payload|] == payload
  {
    hide Sealed;
    var body := Header(|payload|) + payload;
    SealedPrefix(body);
    Le16Back(|payload|);
    var b := Sealed(body);
    assert b[..|body|] == body;
    assert b[..4] == b[..|body|][..4] && b[4] == b[..|body|][4] && b[5] == b[..|body|][5];
    assert b[6..6 + |payload|] == b[..|body|][6..];
  }

  /** The checksum is the remainder of the division that CrcDivision defines. */
  lemma EnvelopeDivides(body: seq<byte>)
    ensures CrcDivision.OnAir(Crc16.Ccitt, Raws(Sealed(body))) ==
            CrcDivision.OnAir(Crc16.Ccitt, Raws(body)) + CrcDivision.Checksum(Crc16.Ccitt, Raws(body))
  {
    hide CrcDivision.OnAir, CrcDivision.Checksum, Crc16.Crc, Crc16.Low, Crc16.High;
    var crc := Crc16.Crc(Crc16.Ccitt, Raws(body));
    RawCooked(Crc16.Low(crc)); RawCooked(Crc16.High(crc));
    assert Raws(Sealed(body)) == Crc16.Append(Crc16.Ccitt, Raws(body));
    CrcDivision.FrameDivides(Crc16.Ccitt, Raws(body));
  }

  lemma RawInjective(a: seq<byte>, b: seq<byte>)
    requires Raws(a) == Raws(b)
    ensures a == b
  {
    assert |a| == |b|;
    forall i | 0 <= i < |a| ensures a[i] == b[i] { assert Raws(a)[i] == Raws(b)[i]; }
  }

  /** Accepted are exactly the envelopes of version 1 or 2, with any fourth byte, whose length and checksum
      are right. */
  lemma AcceptedIff(blob: seq<byte>)
    ensures Accepted(blob) <==>
            && |blob| >= 8 && blob[..2] == [0x4E, 0x46] && (blob[2] == 0x01 || blob[2] == 0x02)
            && blob[4] as nat + 256 * blob[5] as nat == |blob| - 8 && blob == Sealed(blob[..|blob| - 2])
  {
    if |blob| >= 8 {
      hide Crc16.Check, Crc16.Crc, Crc16.Low, Crc16.High, Sealed;
      var body := blob[..|blob| - 2];
      Crc16.CheckIffAppended(Crc16.Ccitt, Raws(blob));
      SealedRaws(body);
      assert Raws(blob)[..|blob| - 2] == Raws(body);
      if Raws(blob) == Raws(Sealed(body)) { RawInjective(blob, Sealed(body)); }
      assert blob[..2] == [blob[0], blob[1]];
    }
  }

  lemma SealedRaws(body: seq<byte>)
    ensures Raws(Sealed(body)) == Crc16.Append(Crc16.Ccitt, Raws(body))
  {
    hide Crc16.Crc, Crc16.Low, Crc16.High;
    var crc := Crc16.Crc(Crc16.Ccitt, Raws(body));
    RawCooked(Crc16.Low(crc)); RawCooked(Crc16.High(crc));
  }

  // ---------- loading any envelope ----------

  /** An entry as it may stand in a blob, with any flags. */
  datatype Item = Item(id: byte, flags: byte, body: seq<byte>)

  function ItemBytes(item: Item, v1: bool): (b: seq<byte>)
    ensures |b| == (if v1 then 3 else 4) + |item.body|
  { (if v1 then [item.id] else [item.id, item.flags]) + Le16(|item.body|) + item.body }

  function ItemsBytes(items: seq<Item>, v1: bool): seq<byte> {
    if items == [] then [] else ItemBytes(items[0], v1) + ItemsBytes(items[1..], v1)
  }

  /** Service i is the first with this identifier. */
  predicate FirstWith(svcs: seq<Service>, id: byte, i: nat) {
    i < |svcs| && svcs[i].Service? && svcs[i].id == id && forall j :: 0 <= j < i ==> !(svcs[j].Service? && svcs[j].id == id)
  }

  lemma {:induction false} FoundFirst(svcs: seq<Service>, k: nat, id: byte)
    requires k <= |svcs| && forall j :: 0 <= j < k ==> !(svcs[j].Service? && svcs[j].id == id)
    ensures var r := FindService(svcs, k, id);
            if r.Some? then FirstWith(svcs, id, r.value) else forall i :: 0 <= i < |svcs| ==> !FirstWith(svcs, id, i)
    decreases |svcs| - k
  {
    if k < |svcs| && !(svcs[k].Service? && svcs[k].id == id) { FoundFirst(svcs, k + 1, id); }
  }

  /** What is handed out for a list of entries: each body to the first service with its identifier, if that
      can take it. */
  function Handed(items: seq<Item>, svcs: seq<Service>): seq<Delivery> {
    if items == [] then []
    else
      var rest, i := Handed(items[1..], svcs), FindService(svcs, 0, items[0].id);
      if i.Some? && svcs[i.value].deserializer then [Delivery(i.value, items[0].body)] + rest else rest
  }

  predicate Short(items: seq<Item>) { forall i :: 0 <= i < |items| ==> |items[i].body| < 65536 }

  lemma ItemParts(item: Item, v1: bool, rest: seq<byte>)
    requires |item.body| < 65536
    ensures var p, h, n := ItemBytes(item, v1) + rest, if v1 then 3 else 4, |item.body|;
            && |p| >= h + n && p[0] == item.id && From16(p[h - 2], p[h - 1]) == n && p[h..h + n] == item.body && p[h + n..] == rest
  {
    Le16Back(|item.body|);
    var p, h, n := ItemBytes(item, v1) + rest, if v1 then 3 else 4, |item.body|;
    assert ItemBytes(item, v1)[h..] == item.body;
    assert p[h..h + n] == ItemBytes(item, v1)[h..];
  }

  /** In both versions, whatever the flags, the bodies are handed out in order and nothing is corrupt. */
  lemma {:induction false} ItemsHanded(items: seq<Item>, v1: bool, svcs: seq<Service>)
    requires Short(items)
    ensures Unpack(ItemsBytes(items, v1), v1, svcs) == Loading(Handed(items, svcs), false)
    decreases |items|
  {
    hide FindService, ItemBytes;
    if items != [] {
      assert Short(items[1..]) by { assert forall i :: 0 <= i < |items[1..]| ==> items[1..][i] == items[i + 1]; }
      ItemsHanded(items[1..], v1, svcs);
      ItemParts(items[0], v1, ItemsBytes(items[1..], v1));
    }
  }

  /** A payload that breaks off inside an entry is corrupt, but what came before has been handed out. */
  lemma {:induction false} TornHanded(items: seq<Item>, torn: seq<byte>, v1: bool, svcs: seq<Service>)
    requires Short(items) && torn != [] && Torn(torn, v1)
    ensures Unpack(ItemsBytes(items, v1) + torn, v1, svcs) == Loading(Handed(items, svcs), true)
    decreases |items|
  {
    hide FindService, ItemBytes;
    if items == [] {
      assert ItemsBytes(items, v1) + torn == torn;
    } else {
      assert Short(items[1..]) by { assert forall i :: 0 <= i < |items[1..]| ==> items[1..][i] == items[i + 1]; }
      TornHanded(items[1..], torn, v1, svcs);
      var rest := ItemsBytes(items[1..], v1) + torn;
      assert ItemsBytes(items, v1) + torn == ItemBytes(items[0], v1) + rest;
      ItemParts(items[0], v1, rest);
    }
  }

  /** Too short for an entry's head, or for the body it announces. */
  predicate Torn(s: seq<byte>, v1: bool) {
    if v1 then |s| < 3 || |s| < 3 + (s[1] as nat + 256 * s[2] as nat) else |s| < 4 || |s| < 4 + (s[2] as nat + 256 * s[3] as nat)
  }
}
