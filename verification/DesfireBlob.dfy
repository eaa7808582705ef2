/** What a DESFire blob holds, byte by byte, and which blobs there are: when an image comes back as it
    was, when it fits, and what the reader accepts. */
module DesfireBlob {
  import opened Bytes
  import opened Desfire

  // ---------- settings ----------

  /** The value is within the bytes its kind of file has for it: three for a size, four for a limit,
      two for a record size. */
  predicate Fits(s: Settings) {
    (s.kind <= 1 && s.word < 0x1000000) || s.kind == 2 || (s.kind > 2 && s.word < 65536)
  }

  /** The eight bytes, least significant first. */
  lemma SettingsLayout(s: Settings)
    requires s.access < 65536 && s.word < Word32
    ensures var b := SettingsBytes(s);
            && b[0] == s.kind && b[1] == s.comm && b[2] as nat + 256 * b[3] as nat == s.access
            && b[4] as nat == s.word % 256 && b[5] as nat == s.word / 256 % 256
            && b[6] as nat == (if s.kind <= 2 then s.word / 256 / 256 % 256 else 0)
            && b[7] as nat == (if s.kind == 2 then s.word / 256 / 256 / 256 else 0)
  {
    hide Le16, Le32;
    Le16Back(s.access);
    Le16Bytes(s.access);
    Le32Bytes(Kept(s));
    LowThree(s.word);
    LowTwo(s.word);
    TopByte(s.word);
  }

  lemma Le16Bytes(n: nat)
    ensures Le16(n)[0] == Lo(n) && Le16(n)[1] == Lo(n / 256)
  {
  }

  lemma Le32Bytes(n: nat)
    ensures var b := Le32(n);
            b[0] as nat == n % 256 && b[1] as nat == n / 256 % 256 && b[2] as nat == n / 256 / 256 % 256
            && b[3] as nat == n / 256 / 256 / 256 % 256
  {
  }

  lemma TopByte(w: nat)
    requires w < Word32
    ensures w / 256 / 256 / 256 % 256 == w / 256 / 256 / 256
  {
  }

  lemma Digit(x: nat, q: nat)
    requires x < 256
    ensures (x + 256 * q) / 256 == q && (x + 256 * q) % 256 == x
  {
  }

  lemma LowThree(w: nat)
    ensures var k := w % 0x1000000;
            k % 256 == w % 256 && k / 256 % 256 == w / 256 % 256 && k / 256 / 256 % 256 == w / 256 / 256 % 256
            && k / 256 / 256 / 256 % 256 == 0
  {
    var k, t := w % 0x1000000, w / 0x1000000;
    var x, y, z := k % 256, k / 256 % 256, k / 256 / 256;
    assert k == x + 256 * (y + 256 * z) && z < 256;
    assert w == x + 256 * (y + 256 * (z + 256 * t));
    Digit(x, y + 256 * (z + 256 * t));
    Digit(y, z + 256 * t);
    Digit(z, t);
  }

  lemma LowTwo(w: nat)
    ensures var k := w % 65536;
            k % 256 == w % 256 && k / 256 % 256 == w / 256 % 256 && k / 256 / 256 % 256 == 0 && k / 256 / 256 / 256 % 256 == 0
  {
    var k, t := w % 65536, w / 65536;
    var x, y := k % 256, k / 256;
    assert k == x + 256 * y && y < 256;
    assert w == x + 256 * (y + 256 * t);
    Digit(x, y + 256 * t);
    Digit(y, t);
  }

  lemma KeptIff(s: Settings)
    requires s.word < Word32
    ensures Kept(s) == s.word <==> Fits(s)
  {
  }

  /** Settings are read back as they were exactly when their value fits. */
  lemma SettingsBackIff(s: Settings)
    requires s.access < 65536 && s.word < Word32
    ensures ReadSettings(SettingsBytes(s)) == s <==> Fits(s)
  {
    hide ReadSettings, SettingsBytes, Kept;
    SettingsBack(s);
    KeptIff(s);
  }

  // ---------- the whole image ----------

  predicate FilesFit(files: seq<File>) { forall i :: 0 <= i < |files| ==> Fits(files[i].settings) }

  predicate AppsFit(apps: seq<App>) { forall i :: 0 <= i < |apps| ==> FilesFit(apps[i].files) }

  lemma {:induction false} FilesSame(files: seq<File>)
    requires forall i :: 0 <= i < |files| ==> WellFormedFile(files[i])
    ensures ProjectedFiles(files) == files <==> FilesFit(files)
    decreases |files|
  {
    hide Kept, Fits;
    if files != [] {
      FilesSame(files[1..]);
      KeptIff(files[0].settings);
      assert files == [files[0]] + files[1..];
      assert ProjectedFiles(files)[1..] == ProjectedFiles(files[1..]) && ProjectedFiles(files)[0] == ProjectedFile(files[0]);
      assert forall i :: 0 < i < |files| ==> files[i] == files[1..][i - 1];
    }
  }

  lemma {:induction false} AppsSame(apps: seq<App>)
    requires forall i :: 0 <= i < |apps| ==> WellFormedApp(apps[i])
    ensures ProjectedApps(apps) == apps <==> AppsFit(apps)
    decreases |apps|
  {
    hide WellFormedApp, FilesFit, ProjectedFiles;
    if apps != [] {
      AppsSame(apps[1..]);
      AppParts(apps[0]);
      FilesSame(apps[0].files);
      assert apps == [apps[0]] + apps[1..];
      assert ProjectedApps(apps)[1..] == ProjectedApps(apps[1..]);
      assert ProjectedApps(apps)[0] == apps[0].(files := ProjectedFiles(apps[0].files));
      assert forall i :: 0 < i < |apps| ==> apps[i] == apps[1..][i - 1];
    }
  }

  /** An image comes back as it was written exactly when all its settings fit and it does not end in
      an empty file. */
  lemma ExactRoundTrip(d: Data, outMax: nat, lim: Limits)
    requires WellFormed(d) && Serialize(d, outMax, lim).Ok?
    ensures Deserialize(Serialize(d, outMax, lim).value, lim) == Some(d) <==> AppsFit(d.apps) && !EndsInEmptyFile(d.apps)
  {
    hide Serialize, Deserialize, ProjectedApps, AppsFit, EndsInEmptyFile;
    RoundTrip(d, outMax, lim);
    AppsSame(d.apps);
  }

  // ---------- when it fits ----------

  predicate HasFiles(apps: seq<App>) { exists i :: 0 <= i < |apps| && apps[i].files != [] }

  /** The bytes behind the last file. */
  function Behind(apps: seq<App>): (n: nat)
    requires forall i :: 0 <= i < |apps| ==> WellFormedApp(apps[i])
    ensures n <= |AppsBytes(apps)|
  {
    if apps == [] then 0
    else if HasFiles(apps[1..]) || apps[0].files == [] then Behind(apps[1..])
    else |AppsBytes(apps[1..])|
  }

  lemma {:induction false} PutFilesIff(files: seq<File>, out: seq<byte>, outMax: nat, lim: Limits)
    requires forall i :: 0 <= i < |files| ==> WellFormedFile(files[i])
    ensures PutFiles(files, out, outMax, lim).Ok? <==>
            FilesWithin(files, lim) && (files != [] ==> |out| + |FilesBytes(files)| + 4 <= outMax)
    ensures PutFiles(files, out, outMax, lim).Invalid? ==> !FilesWithin(files, lim)
    ensures PutFiles(files, out, outMax, lim).NoSpace? ==> files != [] && |out| + |FilesBytes(files)| + 4 > outMax
    decreases |files|
  {
    hide WellFormedFile;
    if files != [] {
      PutFilesIff(files[1..], out + FileBytes(files[0]), outMax, lim);
      assert forall i :: 0 < i < |files| ==> files[i] == files[1..][i - 1];
    }
  }

  /** Four spare bytes are asked for behind every file. */
  predicate Roomy(apps: seq<App>, before: nat, outMax: nat)
    requires forall i :: 0 <= i < |apps| ==> WellFormedApp(apps[i])
  {
    before + |AppsBytes(apps)| <= outMax && (HasFiles(apps) ==> before + |AppsBytes(apps)| - Behind(apps) + 4 <= outMax)
  }

  lemma HasFilesStep(apps: seq<App>)
    requires apps != []
    ensures HasFiles(apps) <==> apps[0].files != [] || HasFiles(apps[1..])
  {
    assert forall i :: 0 < i < |apps| ==> apps[i] == apps[1..][i - 1];
    if HasFiles(apps[1..]) {
      var i :| 0 <= i < |apps[1..]| && apps[1..][i].files != [];
      assert apps[i + 1].files != [];
    }
  }

  lemma {:induction false} PutAppsIff(apps: seq<App>, out: seq<byte>, outMax: nat, lim: Limits)
    requires (forall i :: 0 <= i < |apps| ==> WellFormedApp(apps[i])) && |out| <= outMax
    ensures PutApps(apps, out, outMax, lim).Ok? <==> AppsWithin(apps, lim) && Roomy(apps, |out|, outMax)
    ensures PutApps(apps, out, outMax, lim).Invalid? ==> !AppsWithin(apps, lim)
    ensures PutApps(apps, out, outMax, lim).NoSpace? ==> !Roomy(apps, |out|, outMax)
    decreases |apps|
  {
    hide WellFormedApp, FilesWithin, AppsWithin, PutFiles, AppHead, KeysBytes, FilesBytes, HasFiles;
    if apps == [] {
      NoFiles();
    } else {
      var a, tail := apps[0], apps[1..];
      AppParts(a);
      HasFilesStep(apps);
      AppsWithinStep(apps, lim);
      var head := AppHead(a) + KeysBytes(a.keys);
      assert out + AppHead(a) + KeysBytes(a.keys) == out + head;
      PutFilesIff(a.files, out + head, outMax, lim);
      FilesEmpty(a.files);
      var r := PutFiles(a.files, out + head, outMax, lim);
      if r.Ok? {
        PutFilesLayout(a.files, out + head, outMax, lim);
        if |r.value| <= outMax { PutAppsIff(tail, r.value, outMax, lim); }
      }
    }
  }

  lemma AppsWithinStep(apps: seq<App>, lim: Limits)
    requires apps != []
    ensures AppsWithin(apps, lim) <==>
            |apps[0].files| <= lim.files && |apps[0].keys| <= MaxKeys && FilesWithin(apps[0].files, lim) && AppsWithin(apps[1..], lim)
  {
    hide FilesWithin;
    assert forall i :: 0 < i < |apps| ==> apps[i] == apps[1..][i - 1];
    assert forall i :: 0 <= i < |apps[1..]| ==> apps[1..][i] == apps[i + 1];
  }

  lemma NoFiles()
    ensures !HasFiles([]) && forall lim :: AppsWithin([], lim)
  {
  }

  lemma FilesEmpty(files: seq<File>)
    requires forall i :: 0 <= i < |files| ==> WellFormedFile(files[i])
    ensures files == [] ==> FilesBytes(files) == []
  {
  }

  /** The limits: of files and their sizes as configured, and fourteen keys. */
  predicate Within(apps: seq<App>, lim: Limits) {
    forall i :: 0 <= i < |apps| ==>
      |apps[i].files| <= lim.files && |apps[i].keys| <= 14 && forall j :: 0 <= j < |apps[i].files| ==> |apps[i].files[j].data| <= lim.size
  }

  /** Writing succeeds exactly within the limits and with room for the image and the spare bytes; each
      error says which of the two failed. */
  lemma SerializeIff(d: Data, outMax: nat, lim: Limits)
    requires WellFormed(d)
    ensures Serialize(d, outMax, lim).Ok? <==> |d.apps| <= lim.apps && Within(d.apps, lim) && Roomy(d.apps, 51, outMax)
    ensures Serialize(d, outMax, lim).Invalid? ==> |d.apps| > lim.apps || !Within(d.apps, lim)
    ensures Serialize(d, outMax, lim).NoSpace? ==> !Roomy(d.apps, 51, outMax)
  {
    hide PutApps, AppsWithin, Within, HasFiles, Header, AppsBytes, Behind;
    WithinIs(d.apps, lim);
    if outMax >= 51 { PutAppsIff(d.apps, Header(d), outMax, lim); }
  }

  lemma WithinIs(apps: seq<App>, lim: Limits)
    ensures Within(apps, lim) <==> AppsWithin(apps, lim)
  {
  }

  // ---------- what the reader accepts ----------

  /** Bytes that are as expected, or expected to be zero and not looked at. */
  predicate Agree(expected: seq<byte>, actual: seq<byte>) {
    |expected| == |actual| && forall i :: 0 <= i < |expected| ==> expected[i] == actual[i] || expected[i] == 0
  }

  lemma AgreeConcat(a: seq<byte>, b: seq<byte>, c: seq<byte>, d: seq<byte>)
    requires Agree(a, c) && Agree(b, d)
    ensures Agree(a + b, c + d)
  {
  }

  lemma From16Bytes(lo: byte, hi: byte)
    ensures Le16(From16(lo, hi)) == [lo, hi]
  {
  }

  lemma From32Bytes(a: byte, b: byte, c: byte, d: byte)
    ensures Le32(From32(a, b, c, d)) == [a, b, c, d]
  {
    var n := From32(a, b, c, d);
    assert n / 256 == b as nat + 256 * c as nat + 65536 * d as nat && n % 256 == a as nat;
    assert n / 256 / 256 == c as nat + 256 * d as nat && n / 256 % 256 == b as nat;
    assert n / 256 / 256 / 256 == d as nat && n / 256 / 256 % 256 == c as nat;
  }

  lemma SettingsAgree(b: seq<byte>)
    requires |b| == 8
    ensures var s := ReadSettings(b);
            s.access < 65536 && s.word < Word32 && Fits(s) && Agree(SettingsBytes(s), b)
  {
    var s := ReadSettings(b);
    From16Bytes(b[2], b[3]);
    From32Bytes(b[4], b[5], b[6], if s.kind == 2 then b[7] else 0);
    From32Bytes(b[4], b[5], 0, 0);
    hide From16, From32, Le32, Le16;
    SmallKept(s);
    From16Is32(b[4], b[5]);
    assert SettingsBytes(s) == [b[0], b[1]] + Le16(s.access) + Le32(s.word);
  }

  lemma From16Is32(a: byte, b: byte)
    ensures From16(a, b) == From32(a, b, 0, 0)
  {
  }

  lemma SmallKept(s: Settings)
    requires s.word < Word32 && Fits(s)
    ensures Kept(s) == s.word
  {
  }

  lemma FileAgrees(blob: seq<byte>, at: nat, lim: Limits)
    requires ValidLimits(lim) && TakeFile(blob, at, lim).Some?
    ensures var t := TakeFile(blob, at, lim).value;
            && WellFormedFile(t.value) && |t.value.data| <= lim.size && Fits(t.value.settings)
            && Agree(FileBytes(t.value), blob[at..t.next])
  {
    hide SettingsBytes, ReadSettings, From16, Le16, Fits, Agree;
    var t := TakeFile(blob, at, lim).value;
    var f, b, len := t.value, blob[at + 1..at + 9], blob[at + 9..at + 11];
    SettingsAgree(b);
    From16Bytes(blob[at + 9], blob[at + 10]);
    assert len == [blob[at + 9], blob[at + 10]];
    assert blob[at..t.next] == [f.id] + b + len + f.data;
    AgreeSame([f.id]);
    AgreeSame(len);
    AgreeSame(f.data);
    AgreeConcat([f.id], SettingsBytes(f.settings), [f.id], b);
    AgreeConcat([f.id] + SettingsBytes(f.settings), Le16(|f.data|), [f.id] + b, len);
    AgreeConcat([f.id] + SettingsBytes(f.settings) + Le16(|f.data|), f.data, [f.id] + b + len, f.data);
  }

  predicate GoodFiles(files: seq<File>, lim: Limits) {
    (forall i :: 0 <= i < |files| ==> WellFormedFile(files[i])) && FilesWithin(files, lim) && FilesFit(files)
  }

  lemma GoodFilesCons(f: File, files: seq<File>, lim: Limits)
    requires WellFormedFile(f) && |f.data| <= lim.size && Fits(f.settings) && GoodFiles(files, lim)
    ensures GoodFiles([f] + files, lim)
    ensures (forall i :: 0 <= i < |[f] + files| ==> WellFormedFile(([f] + files)[i]))
    ensures (forall i :: 0 <= i < |files| ==> WellFormedFile(files[i]))
    ensures FilesBytes([f] + files) == FileBytes(f) + FilesBytes(files)
  {
    assert ([f] + files)[1..] == files;
  }

  lemma NothingAgrees(lim: Limits)
    ensures Agree(FilesBytes([]), []) && Agree(AppsBytes([]), []) && GoodFiles([], lim) && GoodApps([], lim)
  {
  }

  lemma {:induction false} FilesAgree(blob: seq<byte>, at: nat, count: nat, lim: Limits)
    requires ValidLimits(lim) && at <= |blob| && TakeFiles(blob, at, count, lim).Some?
    ensures var t := TakeFiles(blob, at, count, lim).value;
            && |t.value| == count && GoodFiles(t.value, lim) && (forall i :: 0 <= i < |t.value| ==> WellFormedFile(t.value[i]))
            && Agree(FilesBytes(t.value), blob[at..t.next])
    decreases count
  {
    hide TakeFile, WellFormedFile, FileBytes, FilesBytes, Agree, Fits, GoodFiles;
    if count == 0 {
      NothingAgrees(lim);
      assert blob[at..at] == [];
    } else {
      FileAgrees(blob, at, lim);
      var f := TakeFile(blob, at, lim).value;
      FilesAgree(blob, f.next, count - 1, lim);
      var rest, t := TakeFiles(blob, f.next, count - 1, lim).value, TakeFiles(blob, at, count, lim).value;
      assert t.value == [f.value] + rest.value && t.next == rest.next;
      GoodFilesCons(f.value, rest.value, lim);
      AgreeConcat(FileBytes(f.value), FilesBytes(rest.value), blob[at..f.next], blob[f.next..t.next]);
      assert blob[at..f.next] + blob[f.next..t.next] == blob[at..t.next];
    }
  }

  lemma {:induction false} KeysAgree(blob: seq<byte>, at: nat, count: nat)
    requires at + 16 * count <= |blob|
    ensures var keys := TakeKeys(blob, at, count);
            (forall i :: 0 <= i < |keys| ==> |keys[i]| == 16) && KeysBytes(keys) == blob[at..at + 16 * count]
    decreases count
  {
    if count > 0 {
      KeysAgree(blob, at + 16, count - 1);
      var keys := TakeKeys(blob, at, count);
      assert keys[1..] == TakeKeys(blob, at + 16, count - 1);
      assert blob[at..at + 16] + blob[at + 16..at + 16 * count] == blob[at..at + 16 * count];
    }
  }

  predicate GoodApp(a: App, lim: Limits) {
    WellFormedApp(a) && |a.files| <= lim.files && |a.keys| <= MaxKeys && FilesWithin(a.files, lim) && FilesFit(a.files)
  }

  lemma AppAgrees(blob: seq<byte>, at: nat, lim: Limits)
    requires ValidLimits(lim) && TakeApp(blob, at, lim).Some?
    ensures var t := TakeApp(blob, at, lim).value;
            at < t.next && GoodApp(t.value, lim) && Agree(AppBytes(t.value), blob[at..t.next])
  {
    hide TakeFiles, TakeKeys, FilesBytes, KeysBytes, Agree, FilesWithin, FilesFit, WellFormedFile;
    var t, k, n := TakeApp(blob, at, lim).value, blob[at + 4] as nat, blob[at + 5] as nat;
    var a := t.value;
    KeysAgree(blob, at + 6, k);
    FilesAgree(blob, at + 6 + 16 * k, n, lim);
    assert a.keys == TakeKeys(blob, at + 6, k) && a.files == TakeFiles(blob, at + 6 + 16 * k, n, lim).value.value;
    assert WellFormedApp(a);
    var head, keys, files := blob[at..at + 6], blob[at + 6..at + 6 + 16 * k], blob[at + 6 + 16 * k..t.next];
    assert AppHead(a) == head by {
      assert head[..3] == a.id;
    }
    AgreeSame(head);
    AgreeSame(keys);
    AgreeConcat(AppHead(a), KeysBytes(a.keys), head, keys);
    AgreeConcat(AppHead(a) + KeysBytes(a.keys), FilesBytes(a.files), head + keys, files);
    assert head + keys + files == blob[at..t.next];
  }

  lemma AgreeSame(a: seq<byte>)
    ensures Agree(a, a)
  {
  }

  predicate GoodApps(apps: seq<App>, lim: Limits) { forall i :: 0 <= i < |apps| ==> GoodApp(apps[i], lim) }

  lemma GoodWellFormed(apps: seq<App>, lim: Limits)
    requires GoodApps(apps, lim)
    ensures forall i :: 0 <= i < |apps| ==> WellFormedApp(apps[i])
    ensures AppsWithin(apps, lim) && AppsFit(apps)
  {
  }

  lemma GoodAppsCons(a: App, apps: seq<App>, lim: Limits)
    requires GoodApp(a, lim) && GoodApps(apps, lim)
    ensures GoodApps([a] + apps, lim) && WellFormedApp(a)
    ensures (forall i :: 0 <= i < |[a] + apps| ==> WellFormedApp(([a] + apps)[i]))
    ensures (forall i :: 0 <= i < |apps| ==> WellFormedApp(apps[i]))
    ensures AppsBytes([a] + apps) == AppBytes(a) + AppsBytes(apps)
  {
    hide WellFormedApp, AppBytes, FilesWithin, FilesFit;
    assert ([a] + apps)[1..] == apps;
  }

  lemma {:induction false} AppsAgree(blob: seq<byte>, at: nat, count: nat, lim: Limits)
    requires ValidLimits(lim) && at <= |blob| && TakeApps(blob, at, count, lim).Some?
    ensures var t := TakeApps(blob, at, count, lim).value;
            && |t.value| == count && GoodApps(t.value, lim)
            && (forall i :: 0 <= i < |t.value| ==> WellFormedApp(t.value[i])) && Agree(AppsBytes(t.value), blob[at..t.next])
    decreases count
  {
    hide TakeApp, GoodApp, GoodApps, AppBytes, AppsBytes, Agree, WellFormedApp;
    if count == 0 {
      NothingAgrees(lim);
      assert blob[at..at] == [];
    } else {
      AppAgrees(blob, at, lim);
      var a := TakeApp(blob, at, lim).value;
      AppsAgree(blob, a.next, count - 1, lim);
      var rest, t := TakeApps(blob, a.next, count - 1, lim).value, TakeApps(blob, at, count, lim).value;
      assert t.value == [a.value] + rest.value && t.next == rest.next;
      GoodAppsCons(a.value, rest.value, lim);
      AgreeConcat(AppBytes(a.value), AppsBytes(rest.value), blob[at..a.next], blob[a.next..t.next]);
      assert blob[at..a.next] + blob[a.next..t.next] == blob[at..t.next];
    }
  }

  /** Whatever blob is accepted, the image read from it is within the limits, its settings fit, and its
      layout is the blob, up to bytes of the settings that are not looked at. */
  lemma AcceptedIsLayout(blob: seq<byte>, lim: Limits)
    requires ValidLimits(lim) && Deserialize(blob, lim).Some?
    ensures var d := Deserialize(blob, lim).value;
            && WellFormed(d) && AppsWithin(d.apps, lim) && AppsFit(d.apps) && Agree(Header(d) + AppsBytes(d.apps), blob)
  {
    hide TakeApps, AppsBytes, Agree, AppsWithin, AppsFit, WellFormedApp, GoodApps;
    var d, n := Deserialize(blob, lim).value, blob[50] as nat;
    AppsAgree(blob, 51, n, lim);
    GoodWellFormed(d.apps, lim);
    From32Bytes(blob[29], blob[30], blob[31], blob[32]);
    hide Le32, From32;
    assert d.apps == TakeApps(blob, 51, n, lim).value.value;
    assert Header(d) == blob[..51];
    AgreeSame(blob[..51]);
    assert blob[51..|blob|] == blob[51..];
    AgreeConcat(Header(d), AppsBytes(d.apps), blob[..51], blob[51..]);
    assert blob[..51] + blob[51..] == blob;
  }
}
