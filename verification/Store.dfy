/** The card store (nfc_store.c) over its RAM backend (nfc_store_ram.c): an envelope of entries,
    one per service that serialises, closed by a CRC.

    What is loaded is what was saved, service by service; damage to an envelope is noticed; and
    the slot array is a bounded map from tags to blobs. */
module Store {
  import opened Bytes
  import Crc16
  import Octets

  // ---------- the checksum on bytes ----------

  function Raw(b: byte): (v: bv8)
    ensures Octets.Num(v) == b as nat
  { Octets.Octet(b as nat) }

  function Cooked(v: bv8): byte { Octets.Num(v) as byte }

  lemma RawCooked(v: bv8)
    ensures Raw(Cooked(v)) == v
  {
    Octets.NumInjective(Raw(Cooked(v)), v);
  }

  function Raws(s: seq<byte>): (r: seq<bv8>)
    ensures |r| == |s|
    ensures forall i :: 0 <= i < |s| ==> r[i] == Raw(s[i])
  { seq(|s|, i requires 0 <= i < |s| => Raw(s[i])) }

  /** nfc_store_append_crc: CRC16-CCITT, low byte first. */
  function Sealed(body: seq<byte>): (blob: seq<byte>)
    ensures |blob| == |body| + 2
  {
    var crc := Crc16.Crc(Crc16.Ccitt, Raws(body));
    body + [Cooked(Crc16.Low(crc)), Cooked(Crc16.High(crc))]
  }

  predicate Intact(blob: seq<byte>) { Crc16.Check(Crc16.Ccitt, Raws(blob)) }

  lemma SealedIntact(body: seq<byte>)
    requires body != []
    ensures Intact(Sealed(body))
  {
    hide Crc16.Crc, Crc16.Low, Crc16.High, Crc16.Check;
    var crc := Crc16.Crc(Crc16.Ccitt, Raws(body));
    RawCooked(Crc16.Low(crc)); RawCooked(Crc16.High(crc));
    assert Raws(Sealed(body)) == Crc16.Append(Crc16.Ccitt, Raws(body));
    Crc16.AppendPassesIff(Crc16.Ccitt, Raws(body));
  }

  // ---------- the envelope ----------

  const Version1: byte := 1
  const Version2: byte := 2

  function Header(payloadLen: nat): (h: seq<byte>)
    ensures |h| == 6
  { [0x4E, 0x46, Version2, 0x00] + Le16(payloadLen) }

  function Envelope(payload: seq<byte>): (blob: seq<byte>)
    ensures |blob| == 8 + |payload|
  { Sealed(Header(|payload|) + payload) }

  /** nfc_store_validate_blob_buf. */
  predicate Accepted(blob: seq<byte>) {
    |blob| >= 8 && blob[0] == 0x4E && blob[1] == 0x46 && (blob[2] == Version2 || blob[2] == Version1) &&
    8 + From16(blob[4], blob[5]) == |blob| && Intact(blob)
  }

  function Payload(blob: seq<byte>): seq<byte>
    requires |blob| >= 8
  { blob[6..|blob| - 2] }

  lemma EnvelopeAccepted(payload: seq<byte>)
    requires |payload| < 65536
    ensures var blob := Envelope(payload);
            Accepted(blob) && blob[2] == Version2 && Payload(blob) == payload
  {
    hide Intact, Sealed;
    var body := Header(|payload|) + payload;
    SealedIntact(body);
    SealedPrefix(body);
    var blob := Sealed(body);
    var n := |payload|;
    assert blob[..6 + n] == body;
    assert forall i :: 0 <= i < 6 ==> blob[i] == blob[..6 + n][i];
    assert blob[6..6 + n] == body[6..] == payload;
  }

  lemma SealedPrefix(body: seq<byte>)
    ensures Sealed(body)[..|body|] == body
  {
  }

  /** Damage to one byte, or to two neighbouring ones, anywhere in an accepted envelope is
      noticed: in the header, the payload or the checksum, at every length. */
  lemma DamageNoticed(good: seq<byte>, bad: seq<byte>, i: nat)
    requires Accepted(good) && |bad| == |good| && i + 1 < |good|
    requires good[i] != bad[i] || good[i + 1] != bad[i + 1]
    requires forall j :: 0 <= j < |good| && j != i && j != i + 1 ==> good[j] == bad[j]
    ensures !Accepted(bad)
  {
    hide Crc16.Check;
    var g, b := Raws(good), Raws(bad);
    assert g[i] == Raw(good[i]) && b[i] == Raw(bad[i]) && g[i + 1] == Raw(good[i + 1]) && b[i + 1] == Raw(bad[i + 1]);
    Crc16.AdjacentDamageDetected(Crc16.Ccitt, g, b, i);
  }

  // ---------- entries ----------

  /** What a service's serialize callback does, if it has one. */
  datatype Outcome = NoSerializer | NotSupported | Fails | Gives(body: seq<byte>)

  /** A service in the list given to save and load; deserializer says whether it has that callback. */
  datatype Service = Null | Service(id: byte, saves: Outcome, deserializer: bool)

  predicate Skipped(s: Service) { s.Null? || s.id == 0 || s.saves.NoSerializer? || s.saves.NotSupported? }

  /** nfc_store_flags_for_persist_id for a reader capture: captured, and complete enough to
      emulate for the first five kinds. */
  function Flags(id: byte): byte { if 1 <= id <= 5 then 0x05 else 0x01 }

  function Entry(id: byte, body: seq<byte>): (e: seq<byte>)
    ensures |e| == 4 + |body|
  { [id, Flags(id)] + Le16(|body|) + body }

  datatype Packing = Packed(payload: seq<byte>) | IoError | NoMemory

  /** The loop of nfc_store_save into a buffer of blobMax bytes. */
  function Pack(svcs: seq<Service>, payload: seq<byte>, blobMax: nat): Packing
    decreases |svcs|
  {
    if svcs == [] then Packed(payload)
    else if Skipped(svcs[0]) then Pack(svcs[1..], payload, blobMax)
    else if svcs[0].saves.Fails? then IoError
    else if 6 + |payload| + 4 + |svcs[0].saves.body| + 2 > blobMax then NoMemory
    else Pack(svcs[1..], payload + Entry(svcs[0].id, svcs[0].saves.body), blobMax)
  }

  /** All entries from service k on. */
  function Entries(svcs: seq<Service>, k: nat): seq<byte>
    requires k <= |svcs|
    decreases |svcs| - k
  {
    if k == |svcs| then []
    else if Skipped(svcs[k]) || svcs[k].saves.Fails? then Entries(svcs, k + 1)
    else Entry(svcs[k].id, svcs[k].saves.body) + Entries(svcs, k + 1)
  }

  lemma {:induction false} PackLayout(svcs: seq<Service>, k: nat, payload: seq<byte>, blobMax: nat)
    requires k <= |svcs| && Pack(svcs[k..], payload, blobMax).Packed? && 8 + |payload| <= blobMax
    ensures Pack(svcs[k..], payload, blobMax).payload == payload + Entries(svcs, k)
    ensures 8 + |payload| + |Entries(svcs, k)| <= blobMax
    ensures forall i :: k <= i < |svcs| && !Skipped(svcs[i]) ==> svcs[i].saves.Gives? && |svcs[i].saves.body| <= blobMax
    decreases |svcs| - k
  {
    hide Entry;
    if k == |svcs| {
      assert payload + [] == payload;
    } else {
      assert svcs[k..][0] == svcs[k] && svcs[k..][1..] == svcs[k + 1..];
      if Skipped(svcs[k]) {
        PackLayout(svcs, k + 1, payload, blobMax);
      } else {
        var e := Entry(svcs[k].id, svcs[k].saves.body);
        PackLayout(svcs, k + 1, payload + e, blobMax);
        assert payload + (e + Entries(svcs, k + 1)) == (payload + e) + Entries(svcs, k + 1);
      }
    }
  }

  // ---------- loading ----------

  /** A body handed to the deserialize callback of a service. */
  datatype Delivery = Delivery(svc: nat, body: seq<byte>)

  datatype Loading = Loading(deliveries: seq<Delivery>, corrupt: bool)

  /** Every body was taken by its service. */
  predicate AllTaken(deliveries: seq<Delivery>, accepts: Delivery -> bool) {
    forall i :: 0 <= i < |deliveries| ==> accepts(deliveries[i])
  }

  lemma TakenSnoc(deliveries: seq<Delivery>, d: Delivery, accepts: Delivery -> bool)
    ensures AllTaken(deliveries + [d], accepts) <==> AllTaken(deliveries, accepts) && accepts(d)
  {
    assert (deliveries + [d])[|deliveries|] == d;
    assert forall i :: 0 <= i < |deliveries| ==> (deliveries + [d])[i] == deliveries[i];
  }

  lemma NoneTaken(accepts: Delivery -> bool)
    ensures AllTaken([], accepts)
  {
  }

  /** nfc_store_find_service from service k on. */
  function FindService(svcs: seq<Service>, k: nat, id: byte): (r: Option<nat>)
    requires k <= |svcs|
    ensures r.Some? ==> k <= r.value < |svcs| && svcs[r.value].Service? && svcs[r.value].id == id
    ensures r.None? ==> forall i :: k <= i < |svcs| ==> svcs[i].Service? ==> svcs[i].id != id
    decreases |svcs| - k
  {
    if k == |svcs| then None
    else if svcs[k].Service? && svcs[k].id == id then Some(k)
    else FindService(svcs, k + 1, id)
  }

  /** The loop of nfc_store_load on a payload; version 1 entries have no flags. */
  function Unpack(payload: seq<byte>, v1: bool, svcs: seq<Service>): Loading
    decreases |payload|
  {
    var overhead := if v1 then 3 else 4;
    if payload == [] then Loading([], false)
    else if |payload| < overhead then Loading([], true)
    else
      var len := From16(payload[overhead - 2], payload[overhead - 1]);
      if |payload| < overhead + len then Loading([], true)
      else
        var rest := Unpack(payload[overhead + len..], v1, svcs);
        var i := FindService(svcs, 0, payload[0]);
        if i.None? || !svcs[i.value].deserializer then rest
        else rest.(deliveries := [Delivery(i.value, payload[overhead..overhead + len])] + rest.deliveries)
  }

  /** Every service that serialised and can deserialise, with its own body, in order. */
  function Bodies(svcs: seq<Service>, k: nat): seq<Delivery>
    requires k <= |svcs|
    decreases |svcs| - k
  {
    if k == |svcs| then []
    else if Skipped(svcs[k]) || svcs[k].saves.Fails? || !svcs[k].deserializer then Bodies(svcs, k + 1)
    else [Delivery(k, svcs[k].saves.body)] + Bodies(svcs, k + 1)
  }

  predicate DistinctIds(svcs: seq<Service>) {
    forall i, j :: 0 <= i < j < |svcs| && svcs[i].Service? && svcs[j].Service? && svcs[i].id == svcs[j].id ==> svcs[i].id == 0
  }

  lemma FoundSelf(svcs: seq<Service>, k: nat)
    requires DistinctIds(svcs) && k < |svcs| && svcs[k].Service? && svcs[k].id != 0
    ensures FindService(svcs, 0, svcs[k].id) == Some(k)
  {
    assert FindService(svcs, 0, svcs[k].id).Some?;
  }

  lemma EntryParts(id: byte, body: seq<byte>, rest: seq<byte>)
    requires |body| < 65536
    ensures var p := Entry(id, body) + rest;
            && |p| >= 4 + |body| && p[0] == id && From16(p[2], p[3]) == |body| && p[4..4 + |body|] == body && p[4 + |body|..] == rest
  {
    Le16Back(|body|);
    var e := Entry(id, body);
    assert e[4..] == body;
    assert (e + rest)[4..4 + |body|] == e[4..];
  }

  lemma {:induction false} UnpackEntries(svcs: seq<Service>, k: nat)
    requires k <= |svcs| && DistinctIds(svcs)
    requires forall i :: k <= i < |svcs| && !Skipped(svcs[i]) ==> svcs[i].saves.Gives? && |svcs[i].saves.body| < 65536
    ensures Unpack(Entries(svcs, k), false, svcs) == Loading(Bodies(svcs, k), false)
    decreases |svcs| - k
  {
    hide Entry, DistinctIds, FindService;
    if k < |svcs| {
      UnpackEntries(svcs, k + 1);
      if !Skipped(svcs[k]) {
        EntryParts(svcs[k].id, svcs[k].saves.body, Entries(svcs, k + 1));
        FoundSelf(svcs, k);
      }
    }
  }

  /** nfc_store_save as far as the backend: the blob. */
  function Save(svcs: seq<Service>, blobMax: nat): Packing {
    var p := Pack(svcs, [], blobMax);
    if p.Packed? then Packed(Envelope(p.payload)) else p
  }

  /** nfc_store_load from the backend on. */
  function Load(blob: seq<byte>, svcs: seq<Service>): Loading {
    if !Accepted(blob) then Loading([], true) else Unpack(Payload(blob), blob[2] == Version1, svcs)
  }

  /** Loading what was saved gives each service that serialised exactly its own body, in order, and
      the skipped ones nothing. */
  lemma LoadSaved(svcs: seq<Service>, blobMax: nat)
    requires DistinctIds(svcs) && 512 <= blobMax <= 16384 && Save(svcs, blobMax).Packed?
    ensures var blob := Save(svcs, blobMax).payload;
            |blob| <= blobMax && Load(blob, svcs) == Loading(Bodies(svcs, 0), false)
  {
    hide Envelope, Accepted, Payload, Unpack, DistinctIds;
    assert svcs[0..] == svcs;
    PackLayout(svcs, 0, [], blobMax);
    var payload := Entries(svcs, 0);
    assert [] + payload == payload;
    EnvelopeAccepted(payload);
    UnpackEntries(svcs, 0);
  }

  lemma {:induction false} BodiesAre(svcs: seq<Service>, k: nat, i: nat)
    requires k <= i < |svcs|
    ensures (exists d :: d in Bodies(svcs, k) && d.svc == i) <==>
            !Skipped(svcs[i]) && svcs[i].saves.Gives? && svcs[i].deserializer
    ensures forall d :: d in Bodies(svcs, k) ==> k <= d.svc < |svcs|
    ensures forall d :: d in Bodies(svcs, k) && d.svc == i ==> svcs[i].Service? && svcs[i].saves == Gives(d.body)
    decreases i - k
  {
    if k < i { BodiesAre(svcs, k + 1, i); } else { BodiesLater(svcs, i + 1); }
    var rest := Bodies(svcs, k + 1);
    if Bodies(svcs, k) != rest {
      var d := Delivery(k, svcs[k].saves.body);
      assert Bodies(svcs, k) == [d] + rest;
      assert d in Bodies(svcs, k);
      assert forall x :: x in rest ==> x in Bodies(svcs, k);
    }
  }

  lemma {:induction false} BodiesLater(svcs: seq<Service>, k: nat)
    requires k <= |svcs|
    ensures forall d :: d in Bodies(svcs, k) ==> k <= d.svc < |svcs|
    decreases |svcs| - k
  {
    if k < |svcs| { BodiesLater(svcs, k + 1); }
  }

  // ---------- the RAM backend ----------

  /** nfc_store_ram_slot_t. */
  datatype Slot = Slot(tag: string, blob: seq<byte>, occupied: bool)

  predicate DistinctTags(slots: seq<Slot>) {
    forall i, j :: 0 <= i < j < |slots| && slots[i].occupied && slots[j].occupied ==> slots[i].tag != slots[j].tag
  }

  /** The slots hold exactly this map. */
  ghost predicate Shows(slots: seq<Slot>, m: map<string, seq<byte>>) {
    (forall i :: 0 <= i < |slots| && slots[i].occupied ==> slots[i].tag in m && m[slots[i].tag] == slots[i].blob) &&
    (forall t :: t in m ==> HasTag(slots, t))
  }

  predicate HasTag(slots: seq<Slot>, t: string) {
    exists i :: 0 <= i < |slots| && slots[i].occupied && slots[i].tag == t
  }

  function Occupied(slots: seq<Slot>): (n: nat)
    ensures n <= |slots|
  {
    if slots == [] then 0
    else Occupied(slots[..|slots| - 1]) + if slots[|slots| - 1].occupied then 1 else 0
  }

  lemma TagInFront(slots: seq<Slot>, t: string)
    requires slots != [] && HasTag(slots, t)
    ensures HasTag(slots[..|slots| - 1], t) || (slots[|slots| - 1].occupied && slots[|slots| - 1].tag == t)
  {
    var front := slots[..|slots| - 1];
    var i :| 0 <= i < |slots| && slots[i].occupied && slots[i].tag == t;
    if i < |front| { assert front[i] == slots[i]; }
  }

  lemma DropFree(slots: seq<Slot>, m: map<string, seq<byte>>)
    requires slots != [] && !slots[|slots| - 1].occupied && DistinctTags(slots) && Shows(slots, m)
    ensures DistinctTags(slots[..|slots| - 1]) && Shows(slots[..|slots| - 1], m)
  {
    forall t | t in m ensures HasTag(slots[..|slots| - 1], t) { TagInFront(slots, t); }
  }

  lemma DropHeld(slots: seq<Slot>, m: map<string, seq<byte>>)
    requires slots != [] && slots[|slots| - 1].occupied && DistinctTags(slots) && Shows(slots, m)
    ensures var tag := slots[|slots| - 1].tag;
            && tag in m && |m| == |m - {tag}| + 1
            && DistinctTags(slots[..|slots| - 1]) && Shows(slots[..|slots| - 1], m - {tag})
  {
    DropShows(slots, m);
    hide Shows, DistinctTags;
    DropCard(m, slots[|slots| - 1].tag);
  }

  lemma DropShows(slots: seq<Slot>, m: map<string, seq<byte>>)
    requires slots != [] && slots[|slots| - 1].occupied && DistinctTags(slots) && Shows(slots, m)
    ensures var tag := slots[|slots| - 1].tag;
            tag in m && DistinctTags(slots[..|slots| - 1]) && Shows(slots[..|slots| - 1], m - {tag})
  {
    var tag := slots[|slots| - 1].tag;
    var front, rest := slots[..|slots| - 1], m - {tag};
    forall t | t in rest ensures HasTag(front, t) { TagInFront(slots, t); }
    hide HasTag;
    assert forall i :: 0 <= i < |front| ==> front[i] == slots[i];
  }

  lemma DropCard(m: map<string, seq<byte>>, tag: string)
    requires tag in m
    ensures |m| == |m - {tag}| + 1
  {
    assert m.Keys == (m - {tag}).Keys + {tag};
  }

  /** The map has as many entries as there are occupied slots, so never more than slots. */
  lemma {:induction false} MapBounded(slots: seq<Slot>, m: map<string, seq<byte>>)
    requires DistinctTags(slots) && Shows(slots, m)
    ensures |m| == Occupied(slots)
    decreases |slots|
  {
    if slots == [] {
      forall t: string ensures t !in m { assert !HasTag(slots, t); }
      assert m.Keys == {};
    } else {
      hide DistinctTags, Shows;
      var n := |slots| - 1;
      if slots[n].occupied {
        DropHeld(slots, m);
        MapBounded(slots[..n], m - {slots[n].tag});
      } else {
        DropFree(slots, m);
        MapBounded(slots[..n], m);
      }
    }
  }

  lemma {:induction false} FullIff(slots: seq<Slot>)
    ensures Occupied(slots) == |slots| <==> forall i :: 0 <= i < |slots| ==> slots[i].occupied
    decreases |slots|
  {
    if slots != [] {
      var n := |slots| - 1;
      FullIff(slots[..n]);
      assert forall i :: 0 <= i < n ==> slots[..n][i] == slots[i];
    }
  }

  predicate TagOk(tag: string, maxTag: nat) { 0 < |tag| < maxTag }

  class RamSlots {
    const slots: array<Slot>
    const maxTag: nat
    const blobMax: nat
    ghost var contents: map<string, seq<byte>>

    ghost predicate Valid()
      reads this, slots
    { DistinctTags(slots[..]) && Shows(slots[..], contents) }

    constructor (count: nat, tagMax: nat, sizeMax: nat)
      ensures Valid() && fresh(slots) && slots.Length == count && maxTag == tagMax && blobMax == sizeMax && contents == map[]
    {
      slots := new Slot[count](_ => Slot("", [], false));
      maxTag, blobMax, contents := tagMax, sizeMax, map[];
    }

    /** nfc_store_ram_find_tag. */
    method FindTag(tag: string) returns (r: Option<nat>)
      requires Valid()
      ensures r.Some? ==> r.value < slots.Length && slots[r.value].occupied && slots[r.value].tag == tag
      ensures r.Some? <==> tag in contents
    {
      hide DistinctTags;
      for i := 0 to slots.Length
        invariant forall j :: 0 <= j < i && slots[j].occupied ==> slots[j].tag != tag
      {
        if slots[i].occupied && slots[i].tag == tag {
          assert slots[..][i] == slots[i];
          return Some(i);
        }
      }
      assert forall j :: 0 <= j < slots.Length ==> slots[..][j] == slots[j];
      return None;
    }

    /** nfc_store_ram_find_free. */
    method FindFree() returns (r: Option<nat>)
      ensures r.Some? ==> r.value < slots.Length && !slots[r.value].occupied
      ensures r.None? ==> forall j :: 0 <= j < slots.Length ==> slots[j].occupied
    {
      for i := 0 to slots.Length
        invariant forall j :: 0 <= j < i ==> slots[j].occupied
      {
        if !slots[i].occupied { return Some(i); }
      }
      return None;
    }

    /** nfc_store_ram_save_cb. */
    method SaveCb(tag: string, blob: seq<byte>) returns (ok: bool)
      requires Valid()
      modifies this, slots
      ensures Valid()
      ensures ok <==> 0 < |tag| < maxTag && |blob| <= blobMax && (tag in old(contents) || |old(contents)| < slots.Length)
      ensures contents == if ok then old(contents)[tag := blob] else old(contents)
      ensures !ok ==> slots[..] == old(slots[..])
    {
      if !TagOk(tag, maxTag) { return false; }
      if |blob| > blobMax { return false; }
      MapBounded(slots[..], contents);
      FullIff(slots[..]);
      assert forall j :: 0 <= j < slots.Length ==> slots[..][j] == slots[j];
      var at := FindTag(tag);
      if at.None? { at := FindFree(); }
      if at.None? { return false; }
      ghost var before := slots[..];
      slots[at.value] := Slot(tag, blob, true);
      contents := contents[tag := blob];
      assert slots[..] == before[at.value := Slot(tag, blob, true)];
      Stored(before, old(contents), at.value, tag, blob);
      return true;
    }

    /** nfc_store_ram_load_cb into a buffer of max bytes. */
    method LoadCb(tag: string, max: nat) returns (r: Option<seq<byte>>)
      requires Valid()
      ensures r == if tag in contents && |contents[tag]| <= max then Some(contents[tag]) else None
    {
      var at := FindTag(tag);
      if at.None? { return None; }
      assert slots[..][at.value] == slots[at.value];
      if |slots[at.value].blob| > max { return None; }
      return Some(slots[at.value].blob);
    }
  }

  /** Writing the slot of a tag, or a free slot when the tag has none, updates the map. */
  lemma Stored(before: seq<Slot>, m: map<string, seq<byte>>, at: nat, tag: string, blob: seq<byte>)
    requires at < |before| && DistinctTags(before) && Shows(before, m)
    requires if tag in m then before[at].occupied && before[at].tag == tag else !before[at].occupied
    ensures DistinctTags(before[at := Slot(tag, blob, true)]) && Shows(before[at := Slot(tag, blob, true)], m[tag := blob])
  {
    var after, m2 := before[at := Slot(tag, blob, true)], m[tag := blob];
    forall t | t in m2 ensures HasTag(after, t) {
      if t == tag { assert after[at].occupied && after[at].tag == t; }
      else {
        assert HasTag(before, t);
        var i :| 0 <= i < |before| && before[i].occupied && before[i].tag == t;
        assert after[i] == before[i];
      }
    }
  }

  // ---------- the store ----------

  datatype Saved = Done | BadTag | SaveFailed | OutOfMemory | BackendFailed

  class CardStore {
    const ram: RamSlots

    constructor (r: RamSlots)
      ensures ram == r
    { ram := r; }

    /** nfc_store_save.  The blob of the services replaces what the tag held; whatever goes wrong,
        no slot changes. */
    method SaveCards(tag: string, svcs: seq<Service>) returns (r: Saved)
      requires ram.Valid() && 512 <= ram.blobMax
      modifies ram, ram.slots
      ensures ram.Valid()
      ensures r.Done? ==> Save(svcs, ram.blobMax).Packed? && ram.contents == old(ram.contents)[tag := Save(svcs, ram.blobMax).payload]
      ensures !r.Done? ==> ram.contents == old(ram.contents) && ram.slots[..] == old(ram.slots[..])
      ensures r.Done? <==> 0 < |tag| < ram.maxTag && Save(svcs, ram.blobMax).Packed?
                           && (tag in old(ram.contents) || |old(ram.contents)| < ram.slots.Length)
    {
      hide Envelope, Entry;
      if !TagOk(tag, ram.maxTag) { return BadTag; }
      var payload := [];
      assert svcs[0..] == svcs;
      for i := 0 to |svcs|
        invariant Pack(svcs[i..], payload, ram.blobMax) == Pack(svcs, [], ram.blobMax)
        invariant 8 + |payload| <= ram.blobMax
      {
        var svc := svcs[i];
        assert svcs[i..][0] == svc && svcs[i..][1..] == svcs[i + 1..];
        if Skipped(svc) { continue; }
        if svc.saves.Fails? { return SaveFailed; }
        if 6 + |payload| + 4 + |svc.saves.body| + 2 > ram.blobMax { return OutOfMemory; }
        payload := payload + Entry(svc.id, svc.saves.body);
      }
      var ok := ram.SaveCb(tag, Envelope(payload));
      return if ok then Done else BackendFailed;
    }

    /** nfc_store_load: the bodies handed to services, whether the envelope was sound, and the result.
        A service that refuses its body does not keep the others from theirs. */
    method LoadCards(tag: string, svcs: seq<Service>, accepts: Delivery -> bool)
      returns (found: bool, l: Loading, ok: bool)
      requires ram.Valid()
      ensures found <==> 0 < |tag| < ram.maxTag && tag in ram.contents && |ram.contents[tag]| <= ram.blobMax
      ensures found ==> l == Load(ram.contents[tag], svcs)
      ensures ok <==> found && !l.corrupt && AllTaken(l.deliveries, accepts)
    {
      hide Accepted, Unpack, FindService, RamSlots.Valid, AllTaken;
      l := Loading([], true);
      if !TagOk(tag, ram.maxTag) { return false, l, false; }
      var blob := ram.LoadCb(tag, ram.blobMax);
      if blob.None? { return false, l, false; }
      if !Accepted(blob.value) { return true, l, false; }
      AcceptedLong(blob.value);
      found := true;
      l, ok := Walk(Payload(blob.value), blob.value[2] == Version1, svcs, accepts);
    }

    /** The entry loop of nfc_store_load. */
    method Walk(payload: seq<byte>, v1: bool, svcs: seq<Service>, accepts: Delivery -> bool) returns (l: Loading, ok: bool)
      ensures l == Unpack(payload, v1, svcs)
      ensures ok <==> !l.corrupt && AllTaken(l.deliveries, accepts)
    {
      hide FindService, Unpack, AllTaken;
      UnpackEnd(v1, svcs);
      NoneTaken(accepts);
      var pos: nat, deliveries: seq<Delivery>, refused := 0, [], false;
      assert payload[0..] == payload && [] + Unpack(payload, v1, svcs).deliveries == Unpack(payload, v1, svcs).deliveries;
      while pos < |payload|
        invariant pos <= |payload|
        invariant !refused <==> AllTaken(deliveries, accepts)
        invariant Unpack(payload, v1, svcs) ==
          var rest := Unpack(payload[pos..], v1, svcs);
          rest.(deliveries := deliveries + rest.deliveries)
      {
        UnpackNext(payload, pos, v1, svcs);
        var overhead := if v1 then 3 else 4;
        if pos + overhead > |payload| { return Loading(deliveries, true), false; }
        var id := payload[pos];
        var len := From16(payload[pos + overhead - 2], payload[pos + overhead - 1]);
        if pos + overhead + len > |payload| { return Loading(deliveries, true), false; }
        var svc := FindService(svcs, 0, id);
        var body := payload[pos + overhead..pos + overhead + len];
        ghost var rest := Unpack(payload[pos + overhead + len..], v1, svcs);
        if svc.Some? && svcs[svc.value].deserializer {
          assert deliveries + ([Delivery(svc.value, body)] + rest.deliveries) == (deliveries + [Delivery(svc.value, body)]) + rest.deliveries;
          TakenSnoc(deliveries, Delivery(svc.value, body), accepts);
          deliveries := deliveries + [Delivery(svc.value, body)];
          if !accepts(Delivery(svc.value, body)) { refused := true; }
        }
        pos := pos + overhead + len;
      }
      assert payload[pos..] == [] && deliveries + [] == deliveries;
      return Loading(deliveries, false), !refused;
    }

    /** Saving services under a tag and loading that tag into them: every service that serialised
        hears exactly its own body, in order, and the load succeeds if they all take theirs. */
    method RoundTrip(tag: string, svcs: seq<Service>, accepts: Delivery -> bool) returns (r: Saved, l: Loading, ok: bool)
      requires ram.Valid() && 512 <= ram.blobMax <= 16384 && DistinctIds(svcs)
      modifies ram, ram.slots
      ensures ram.Valid()
      ensures r.Done? ==> l == Loading(Bodies(svcs, 0), false) && (ok <==> AllTaken(Bodies(svcs, 0), accepts))
    {
      hide Save, Load, Bodies, DistinctIds, AllTaken;
      l, ok := Loading([], true), false;
      r := SaveCards(tag, svcs);
      if !r.Done? { return; }
      LoadSaved(svcs, ram.blobMax);
      var found;
      found, l, ok := LoadCards(tag, svcs, accepts);
    }
  }

  /** One turn of the entry loop, at a position in the payload. */
  lemma UnpackNext(payload: seq<byte>, pos: nat, v1: bool, svcs: seq<Service>)
    requires pos < |payload|
    ensures var overhead, u := if v1 then 3 else 4, Unpack(payload[pos..], v1, svcs);
            if pos + overhead > |payload| then u == Loading([], true)
            else
              var len := From16(payload[pos + overhead - 2], payload[pos + overhead - 1]);
              if pos + overhead + len > |payload| then u == Loading([], true)
              else
                var rest, i := Unpack(payload[pos + overhead + len..], v1, svcs), FindService(svcs, 0, payload[pos]);
                u == if i.None? || !svcs[i.value].deserializer then rest
                     else rest.(deliveries := [Delivery(i.value, payload[pos + overhead..pos + overhead + len])] + rest.deliveries)
  {
    hide FindService;
    var tail, overhead := payload[pos..], if v1 then 3 else 4;
    if overhead <= |tail| {
      var len := From16(tail[overhead - 2], tail[overhead - 1]);
      if overhead + len <= |tail| {
        assert tail[overhead..overhead + len] == payload[pos + overhead..pos + overhead + len];
        assert tail[overhead + len..] == payload[pos + overhead + len..];
      }
    }
  }

  lemma UnpackEnd(v1: bool, svcs: seq<Service>)
    ensures Unpack([], v1, svcs) == Loading([], false)
  {
  }

  lemma AcceptedLong(blob: seq<byte>)
    requires Accepted(blob)
    ensures |blob| >= 8
  {
  }
}
