/** Command APDUs (section 5.1 of ISO/IEC 7816-4) as apdu_assembler.c parses them. */
module Apdu {
  import opened Bytes

  /** nfc_apdu_t; lc is the length of the data. */
  datatype Command = Command(cla: byte, ins: byte, p1: byte, p2: byte, data: seq<byte>,
                             le: nat, hasLe: bool, extended: bool)

  datatype Parsed = Ok(apdu: Command) | TooShort | LengthMismatch | ExtendedDisabled

  /** apdu_parse. */
  function Parse(raw: seq<byte>, extendedOk: bool): Parsed {
    if |raw| < 4 then TooShort
    else
      var c := Command(raw[0], raw[1], raw[2], raw[3], [], 0, false, false);
      if |raw| == 4 then Ok(c)
      else if |raw| == 5 then Ok(c.(hasLe := true, le := raw[4] as nat))
      else if raw[4] != 0 then
        var lc := raw[4] as nat;
        if |raw| == 5 + lc then Ok(c.(data := raw[5..]))
        else if |raw| == 6 + lc then Ok(c.(data := raw[5..5 + lc], hasLe := true, le := raw[5 + lc] as nat))
        else LengthMismatch
      else if !extendedOk then ExtendedDisabled
      else if |raw| == 7 then Ok(c.(extended := true, hasLe := true, le := Be16(raw[5], raw[6])))
      else LengthMismatch
  }

  /** The commands that have a form on the wire here: the four short cases, and the extended one
      with an expected length and no data. */
  predicate Expressible(c: Command, extendedOk: bool) {
    if c.extended then extendedOk && c.hasLe && c.data == [] && c.le < 65536
    else |c.data| < 256 && (if c.hasLe then c.le < 256 else c.le == 0)
  }

  function Encoded(c: Command): (raw: seq<byte>)
    requires c.extended ==> c.le < 65536
    requires !c.extended ==> |c.data| < 256 && c.le < 256
  {
    [c.cla, c.ins, c.p1, c.p2]
    + (if c.extended then [0, Hi(c.le), Lo(c.le)]
       else (if c.data == [] then [] else [|c.data| as byte] + c.data) + (if c.hasLe then [c.le as byte] else []))
  }

  lemma ParseEncoded(c: Command, extendedOk: bool)
    requires Expressible(c, extendedOk)
    ensures Parse(Encoded(c), extendedOk) == Ok(c)
  {
    var raw := Encoded(c);
    if c.extended {
      Be16RoundTrip(c.le);
    } else if c.data == [] {
    } else {
      assert raw[5..5 + |c.data|] == c.data;
      if !c.hasLe { assert raw[5..] == c.data; }
    }
  }

  lemma LongForm(raw: seq<byte>)
    requires |raw| > 5 && raw[4] != 0
    ensures |raw| == 5 + raw[4] as nat ==> raw == raw[..4] + ([raw[4]] + raw[5..] + [])
    ensures |raw| == 6 + raw[4] as nat ==>
            raw == raw[..4] + ([raw[4]] + raw[5..5 + raw[4] as nat] + [raw[5 + raw[4] as nat]])
  {
  }

  lemma EncodedParse(raw: seq<byte>, extendedOk: bool)
    requires Parse(raw, extendedOk).Ok?
    ensures Expressible(Parse(raw, extendedOk).apdu, extendedOk) && Encoded(Parse(raw, extendedOk).apdu) == raw
  {
    var head := raw[..4];
    assert head == [raw[0], raw[1], raw[2], raw[3]];
    if |raw| == 4 {
      assert raw == head;
    } else if |raw| == 5 {
      assert raw == head + [raw[4]];
    } else if raw[4] == 0 {
      HiLoRoundTrip(raw[5], raw[6]);
      assert raw == head + [raw[4], raw[5], raw[6]];
    } else {
      LongForm(raw);
    }
  }

  /** The parser accepts exactly the encodings, and gives back what was encoded. */
  lemma ParseIff(raw: seq<byte>, c: Command, extendedOk: bool)
    ensures Parse(raw, extendedOk) == Ok(c) <==> Expressible(c, extendedOk) && raw == Encoded(c)
  {
    if Expressible(c, extendedOk) { ParseEncoded(c, extendedOk); }
    if Parse(raw, extendedOk).Ok? { EncodedParse(raw, extendedOk); }
  }
}
