/** A card's whole way: saved from one listener into a slot of the store, loaded from there into
    another, read back over the air by the NDEF reader and compared (nfc_store.c, ndef_listener.c,
    nfc_applet_verify.c). */
module SlotVerify {
  import opened Bytes
  import Ndef
  import NdefReader
  import Stack
  import Store

  const NdefId: byte := 1

  function NdefService(body: seq<byte>): Store.Service { Store.Service(NdefId, Store.Gives(body), true) }

  lemma OnlyBody(body: seq<byte>)
    ensures Store.DistinctIds([NdefService(body)])
    ensures Store.Bodies([NdefService(body)], 0) == [Store.Delivery(0, body)]
  {
    var svcs := [NdefService(body)];
    assert Store.Bodies(svcs, 1) == [];
  }

  /** The message length is in range, and the container names the NDEF file or is blank. */
  predicate Presentable(c: Ndef.Card, max: nat) {
    Ndef.InRange(c, max) && (NdefReader.NamesFile(c.model.cc) || c.model.cc == Zeroes(15))
  }

  /** Whether the NDEF listener takes a body; what it held before plays no part. */
  predicate Takes(body: seq<byte>, max: nat)
    requires 1 <= max <= 4096
  { Ndef.Deserialize(Ndef.ResetData(max), body, max).ok }

  function Taker(max: nat): Store.Delivery -> bool
    requires 1 <= max <= 4096
  { (d: Store.Delivery) => Takes(d.body, max) }

  lemma TakesSaved(card: Ndef.Card, body: seq<byte>, max: nat, outMax: nat)
    requires Ndef.InRange(card, max) && Ndef.Save(card, max, outMax) == Some(body)
    ensures Takes(body, max)
  {
    Ndef.SavedIff(card, max, outMax);
    NdefReader.CopyIsPolled(card, max, outMax);
  }

  lemma AllOne(body: seq<byte>, max: nat)
    requires 1 <= max <= 4096 && Takes(body, max)
    ensures Store.AllTaken([Store.Delivery(0, body)], Taker(max))
  {
    hide Takes;
  }

  /** Whatever commands the first card has seen, if it is presentable and the save succeeds, the load
      succeeds and the card loaded from the slot reads back equal. */
  method SaveLoadVerify(card: Ndef.Listener, store: Store.CardStore, tag: string, dev: Stack.Device)
    returns (saved: bool, loaded: bool, same: bool)
    requires card.Valid() && dev.Valid() && dev.ndef.max == card.max && card != dev.ndef
    requires store.ram.Valid() && 512 <= store.ram.blobMax <= 16384
    modifies card, store.ram, store.ram.slots, dev.router, dev.ndef, dev.desfire
    ensures (saved && Presentable(old(card.Value()), card.max)) ==> loaded
    ensures (saved && Presentable(old(card.Value()), card.max) && old(NdefReader.Offered(dev.Value()))) ==> same
  {
    hide Ndef.Save, Ndef.InRange, Store.Bodies, Store.DistinctIds, NdefReader.Offered, NdefReader.NamesFile, Stack.Sound;
    hide Store.Save, Store.Load;
    hide Takes, Taker, Store.AllTaken;
    loaded, same := false, false;
    ghost var was, w := card.Value(), dev.Value();
    var body := card.SaveBlob(store.ram.blobMax);
    if body.None? { return false, false, false; }
    assert dev.Value() == w;
    OnlyBody(body.value);
    var max := card.max;
    if Presentable(was, max) { TakesSaved(was, body.value, max, store.ram.blobMax); }
    var r, l;
    r, l, loaded := store.RoundTrip(tag, [NdefService(body.value)], Taker(max));
    saved := r.Done?;
    if !saved { return; }
    if Presentable(was, max) { AllOne(body.value, max); }
    assert dev.Value() == w;
    assert l.deliveries[0].body == body.value;
    same := NdefReader.Verify(dev, was, l.deliveries[0].body, store.ram.blobMax);
  }
}
