/** The builder-draft checksum: a key-sorting serializer over JavaScript values,
    whose objects keep their members in insertion order, and the manifest checksum
    that blanks the digest of the sample manifest before hashing. */
module BuilderDraft {
  import opened Json
  import opened CanonicalText
  import opened JsonReader
  import opened Sorting
  import opened Hashing

  datatype Member = Member(key: string, value: JsValue)

  datatype JsValue =
    | JsNull
    | JsBool(b: bool)
    | JsNumber(text: string)
    | JsString(s: string)
    | JsArray(items: seq<JsValue>)
    | JsObject(members: seq<Member>)

  function Keys(members: seq<Member>): seq<string> {
    seq(|members|, i requires 0 <= i < |members| => members[i].key)
  }

  /** What the language guarantees of every value: one member per key, and numbers print as numerals. */
  ghost predicate Proper(v: JsValue)
    decreases v
  {
    match v
    case JsNumber(text) => IsNumeral(text)
    case JsArray(items) => forall x | x in items :: Proper(x)
    case JsObject(members) => Distinct(Keys(members)) && forall m | m in members :: Proper(m.value)
    case _ => true
  }

  function Find(members: seq<Member>, key: string): (i: nat)
    requires key in Keys(members)
    ensures i < |members| && members[i].key == key
  {
    if members[0].key == key then 0 else
    assert key in Keys(members[1..]) by {
      var i :| 0 <= i < |members| && Keys(members)[i] == key;
      assert Keys(members[1..])[i - 1] == key;
    }
    1 + Find(members[1..], key)
  }

  /** `stableStringify`. */
  function StableStringify(v: JsValue): string
    decreases v, 1, 0
  {
    match v
    case JsNull => "null"
    case JsBool(b) => if b then "true" else "false"
    case JsNumber(text) => text
    case JsString(s) => Quote(s)
    case JsArray(items) => "[" + JoinItems(items) + "]"
    case JsObject(members) =>
      var keys := Sort(KeyLeq, Keys(members));
      SortPermutes(KeyLeq, Keys(members));
      "{" + JoinMembers(v, keys) + "}"
  }

  function JoinItems(items: seq<JsValue>): string
    decreases items, 0, 0
  {
    if items == [] then ""
    else if |items| == 1 then StableStringify(items[0])
    else StableStringify(items[0]) + ", " + JoinItems(items[1..])
  }

  function JoinMembers(v: JsValue, keys: seq<string>): string
    requires v.JsObject? && forall k | k in keys :: k in Keys(v.members)
    decreases v, 0, |keys|
  {
    if keys == [] then ""
    else
      var m := v.members[Find(v.members, keys[0])];
      var text := Quote(keys[0]) + ": " + StableStringify(m.value);
      if |keys| == 1 then text else text + ", " + JoinMembers(v, keys[1..])
  }

  // ----- meaning -----

  /** The JSON value: member order is forgotten. */
  function Meaning(v: JsValue): Json
    decreases v
  {
    match v
    case JsNull => Null
    case JsBool(b) => Bool(b)
    case JsNumber(text) => Num(text)
    case JsString(s) => Str(s)
    case JsArray(items) => Arr(seq(|items|, i requires 0 <= i < |items| => Meaning(items[i])))
    case JsObject(members) => Obj(MeaningOf(members))
  }

  function MeaningOf(members: seq<Member>): Fields
    decreases members
  {
    if members == [] then map[] else MeaningOf(members[1..])[members[0].key := Meaning(members[0].value)]
  }

  lemma {:induction false} MeaningAt(members: seq<Member>)
    requires Distinct(Keys(members))
    ensures MeaningOf(members).Keys == set k | k in Keys(members)
    ensures forall i | 0 <= i < |members| ::
      members[i].key in MeaningOf(members) && MeaningOf(members)[members[i].key] == Meaning(members[i].value)
  {
    hide Meaning;
    if members != [] {
      var rest := members[1..];
      assert Keys(members) == [members[0].key] + Keys(rest);
      assert Keys(members)[1..] == Keys(rest);
      MeaningAt(rest);
      forall i | 0 <= i < |members|
        ensures members[i].key in MeaningOf(members)
        ensures MeaningOf(members)[members[i].key] == Meaning(members[i].value)
      {
        if i > 0 { assert members[i] == rest[i - 1] && Keys(members)[0] != Keys(members)[i]; }
      }
    }
  }

  lemma {:induction false} MeaningWellFormed(v: JsValue)
    requires Proper(v)
    ensures WellFormed(Meaning(v))
    decreases v
  {
    match v
    case JsArray(items) =>
      forall x | x in items ensures WellFormed(Meaning(x)) { MeaningWellFormed(x); }
      forall j | j in Meaning(v).items ensures WellFormed(j) {
        var i :| 0 <= i < |items| && Meaning(v).items[i] == j;
        assert items[i] in items;
      }
    case JsObject(members) =>
      MeaningAt(members);
      forall k | k in MeaningOf(members) ensures WellFormed(MeaningOf(members)[k]) {
        var i := Find(members, k);
        assert members[i] in members;
        MeaningWellFormed(members[i].value);
      }
    case _ =>
  }

  // ----- the serializer prints the meaning -----

  lemma {:induction false} SortedListOfSet(s: seq<string>, keys: set<string>)
    requires Sorted(KeyLeq, s) && Distinct(s) && forall k :: k in s <==> k in keys
    ensures s == SortedKeys(keys)
  {
    if s != [] {
      assert s[0] in keys;
      forall other | other in keys ensures KeyLeq(s[0], other) {
        var i :| 0 <= i < |s| && s[i] == other;
        if i == 0 { KeyLeqTotal(other, other); }
      }
      LeastKeyUnique(s[0], LeastKey(keys), keys);
      assert s == [s[0]] + s[1..];
      SortedListOfSet(s[1..], keys - {s[0]});
    } else {
      assert keys == {};
    }
  }

  lemma KeyOrderIsTotalPreorder()
    ensures TotalPreorder(KeyLeq)
  {
    forall x, y ensures KeyLeq(x, y) || KeyLeq(y, x) { KeyLeqTotal(x, y); }
    forall x, y, z | KeyLeq(x, y) && KeyLeq(y, z) ensures KeyLeq(x, z) { KeyLeqTransitive(x, y, z); }
  }

  lemma SortGivesSortedKeys(keys: seq<string>)
    requires Distinct(keys)
    ensures Sort(KeyLeq, keys) == SortedKeys(set k | k in keys)
  {
    var s := Sort(KeyLeq, keys);
    KeyOrderIsTotalPreorder();
    SortSorts(KeyLeq, keys);
    SortPermutes(KeyLeq, keys);
    PermutationKeepsDistinct(keys, s);
    SortedListOfSet(s, set k | k in keys);
  }

  lemma {:induction false} StringifyPrintsMeaning(v: JsValue)
    requires Proper(v)
    ensures StableStringify(v) == Print(false, Meaning(v))
    decreases v, 1, 0
  {
    match v
    case JsArray(items) => JoinPrintsItems(items);
    case JsObject(members) =>
      MeaningAt(members);
      SortGivesSortedKeys(Keys(members));
      JoinPrintsMembers(v, SortedKeys(Meaning(v).fields.Keys));
    case _ =>
  }

  lemma {:induction false} JoinPrintsItems(items: seq<JsValue>)
    requires forall x | x in items :: Proper(x)
    ensures JoinItems(items) == PrintItems(false, Meaning(JsArray(items)).items)
    decreases items, 0, 0
  {
    var m := Meaning(JsArray(items)).items;
    if items != [] {
      StringifyPrintsMeaning(items[0]);
      if |items| > 1 {
        JoinPrintsItems(items[1..]);
        assert Meaning(JsArray(items[1..])).items == m[1..];
      }
    }
  }

  lemma {:induction false} JoinPrintsMembers(v: JsValue, keys: seq<string>)
    requires v.JsObject? && Proper(v)
    requires forall k | k in keys :: k in Keys(v.members) && k in Meaning(v).fields
    ensures JoinMembers(v, keys) == PrintFields(false, Meaning(v), keys)
    decreases v, 0, |keys|
  {
    if keys != [] {
      var i := Find(v.members, keys[0]);
      assert v.members[i] in v.members;
      MeaningAt(v.members);
      StringifyPrintsMeaning(v.members[i].value);
      if |keys| > 1 { JoinPrintsMembers(v, keys[1..]); }
    }
  }

  /** `stableStringify` ignores member order and nothing else. */
  lemma StableStringifyCanonical(a: JsValue, b: JsValue)
    requires Proper(a) && Proper(b)
    ensures StableStringify(a) == StableStringify(b) <==> Meaning(a) == Meaning(b)
  {
    StringifyPrintsMeaning(a);
    StringifyPrintsMeaning(b);
    MeaningWellFormed(a);
    MeaningWellFormed(b);
    PrintInjective(false, Meaning(a), Meaning(b));
  }

  /** A reader gets the value back, and the members of an object in ascending order of
      their keys, each once, whatever order they were inserted in. */
  lemma StringifyReadsBack(v: JsValue)
    requires Proper(v)
    ensures Read(StableStringify(v)) == Some(Parsed(Meaning(v), ""))
    ensures v.JsObject? ==>
      var text := StableStringify(v);
      && text != "" && text[0] == '{' && ReadObject(text).Some?
      && var read := ReadObject(text).value.value;
         && (forall i, k | 0 <= i < k < |read| :: Before(read[i].key, read[k].key))
         && (forall m | m in v.members :: exists r | r in read :: r.key == m.key && r.value == Meaning(m.value))
         && FieldsOf(read) == Meaning(v).fields
  {
    hide Read, Print, StableStringify, Before;
    StringifyPrintsMeaning(v);
    MeaningWellFormed(v);
    TextReads(false, Meaning(v));
    if v.JsObject? {
      MembersAscend(false, Meaning(v));
      MeaningAt(v.members);
      var read := ReadObject(StableStringify(v)).value.value;
      forall m | m in v.members ensures exists r | r in read :: r.key == m.key && r.value == Meaning(m.value) {
        var i :| 0 <= i < |v.members| && v.members[i] == m;
        FieldIsRead(read, m.key);
      }
    }
  }

  lemma {:induction false} FieldIsRead(members: seq<Pair>, key: string)
    requires key in FieldsOf(members)
    ensures exists m | m in members :: m.key == key && m.value == FieldsOf(members)[key]
  {
    if key in FieldsOf(members[1..]) {
      FieldIsRead(members[1..], key);
      var m :| m in members[1..] && m.key == key && m.value == FieldsOf(members[1..])[key];
      assert m in members;
    } else {
      assert members[0] in members;
    }
  }

  // ----- the manifest checksum -----

  datatype ChangedFile = ChangedFile(path: string, sha256: string)

  /** A manifest: its `changed_files` list and every other member. */
  datatype Manifest = Manifest(changedFiles: seq<ChangedFile>, others: seq<Member>) {
    predicate Valid() {
      "changed_files" !in Keys(others)
    }
  }

  const SAMPLE := "rookguard-builder-draft-manifest.sample.json"

  predicate EndsWith(s: string, suffix: string) {
    |suffix| <= |s| && s[|s| - |suffix|..] == suffix
  }

  function Repeat(c: char, n: nat): string {
    seq(n, _ => c)
  }

  /** The file entry whose digest cannot be part of its own checksum. */
  function Blank(file: ChangedFile): ChangedFile {
    if EndsWith(file.path, SAMPLE) then file.(sha256 := Repeat('0', 64)) else file
  }

  function BlankAll(m: Manifest): Manifest {
    m.(changedFiles := seq(|m.changedFiles|, i requires 0 <= i < |m.changedFiles| => Blank(m.changedFiles[i])))
  }

  function FileValue(file: ChangedFile): JsValue {
    JsObject([Member("path", JsString(file.path)), Member("sha256", JsString(file.sha256))])
  }

  function FileValues(files: seq<ChangedFile>): seq<JsValue> {
    seq(|files|, i requires 0 <= i < |files| => FileValue(files[i]))
  }

  function ManifestValue(m: Manifest): JsValue {
    JsObject([Member("changed_files", JsArray(FileValues(m.changedFiles)))] + m.others)
  }

  ghost predicate ProperManifest(m: Manifest) {
    m.Valid() && Proper(JsObject(m.others))
  }

  /** The text that is hashed. */
  function ChecksumText(m: Manifest): string {
    StableStringify(ManifestValue(BlankAll(m)))
  }

  /** `computeManifestChecksum`: a clone is blanked file by file, then hashed. */
  method ComputeManifestChecksum(sha256: HashFunction, manifest: Manifest) returns (checksum: string)
    ensures checksum == sha256(ChecksumText(manifest))
  {
    var files := manifest.changedFiles;
    for i := 0 to |files|
      invariant |files| == |manifest.changedFiles|
      invariant forall k | 0 <= k < i :: files[k] == Blank(manifest.changedFiles[k])
      invariant forall k | i <= k < |files| :: files[k] == manifest.changedFiles[k]
    {
      if EndsWith(files[i].path, SAMPLE) {
        files := files[i := files[i].(sha256 := Repeat('0', 64))];
      }
    }
    var clone := manifest.(changedFiles := files);
    assert clone == BlankAll(manifest);
    checksum := sha256(StableStringify(ManifestValue(clone)));
  }

  lemma FileValueProper(f: ChangedFile)
    ensures Proper(FileValue(f))
    ensures Meaning(FileValue(f)) == Obj(map["path" := Str(f.path), "sha256" := Str(f.sha256)])
  {
    var ms := FileValue(f).members;
    assert Keys(ms) == ["path", "sha256"];
    assert ms[1..] == [ms[1]] && ms[1..][1..] == [];
    assert MeaningOf([ms[1]]) == map["sha256" := Str(f.sha256)];
    assert MeaningOf(ms) == map["path" := Str(f.path), "sha256" := Str(f.sha256)];
  }

  lemma ManifestProper(m: Manifest)
    requires ProperManifest(m)
    ensures Proper(ManifestValue(m))
    ensures Meaning(ManifestValue(m)).fields
         == MeaningOf(m.others)["changed_files" := Meaning(JsArray(FileValues(m.changedFiles)))]
  {
    var v := ManifestValue(m);
    var files := JsArray(FileValues(m.changedFiles));
    assert Keys(v.members) == ["changed_files"] + Keys(m.others);
    assert v.members[1..] == m.others;
    assert Proper(files) by {
      forall x | x in files.items ensures Proper(x) {
        var i :| 0 <= i < |files.items| && files.items[i] == x;
        FileValueProper(m.changedFiles[i]);
      }
    }
    forall x | x in v.members ensures Proper(x.value) {
      assert x in m.others || x.value == files;
    }
  }

  lemma FileListMeaning(a: seq<ChangedFile>, b: seq<ChangedFile>)
    requires Meaning(JsArray(FileValues(a))) == Meaning(JsArray(FileValues(b)))
    ensures a == b
  {
    var va, vb := Meaning(JsArray(FileValues(a))).items, Meaning(JsArray(FileValues(b))).items;
    assert |a| == |va| && |b| == |vb|;
    forall i | 0 <= i < |a| ensures a[i] == b[i] {
      FileValueProper(a[i]);
      FileValueProper(b[i]);
      assert va[i] == Meaning(FileValue(a[i])) && vb[i] == Meaning(FileValue(b[i]));
      assert va[i].fields["path"] == Str(a[i].path) && vb[i].fields["path"] == Str(b[i].path);
      assert va[i].fields["sha256"] == Str(a[i].sha256) && vb[i].fields["sha256"] == Str(b[i].sha256);
    }
  }

  /** Equal up to member order and the recorded digest of the sample manifest. */
  ghost predicate SameDraft(a: Manifest, b: Manifest) {
    MeaningOf(a.others) == MeaningOf(b.others) && BlankAll(a).changedFiles == BlankAll(b).changedFiles
  }

  lemma ChecksumTextBindsManifest(a: Manifest, b: Manifest)
    requires ProperManifest(a) && ProperManifest(b)
    ensures ChecksumText(a) == ChecksumText(b) <==> SameDraft(a, b)
  {
    var a', b' := BlankAll(a), BlankAll(b);
    ManifestProper(a');
    ManifestProper(b');
    StableStringifyCanonical(ManifestValue(a'), ManifestValue(b'));
    NoSecondFileList(a);
    NoSecondFileList(b);
    SplitManifest(a', b');
  }

  predicate IsZeros(digest: string) {
    |digest| == 64 && forall c | c in digest :: c == '0'
  }

  predicate IsSample(path: string) {
    exists n | 0 <= n <= |path| :: path[n..] == "rookguard-builder-draft-manifest.sample.json"
  }

  /** What is blanked, and what two drafts may differ in: exactly the digests under a
      path that ends in the sample's name, which count as 64 zeros. */
  lemma DraftsDifferInSampleDigests(a: Manifest, b: Manifest)
    ensures SameDraft(a, b) <==>
      && MeaningOf(a.others) == MeaningOf(b.others) && |a.changedFiles| == |b.changedFiles|
      && forall i | 0 <= i < |a.changedFiles| ::
           && a.changedFiles[i].path == b.changedFiles[i].path
           && (a.changedFiles[i].sha256 == b.changedFiles[i].sha256 || IsSample(a.changedFiles[i].path))
    ensures (forall f | f in a.changedFiles && IsSample(f.path) :: IsZeros(f.sha256)) ==>
      ChecksumText(a) == StableStringify(ManifestValue(a))
  {
    hide MeaningOf, StableStringify;
    forall digest | IsZeros(digest) ensures digest == Repeat('0', 64) {
      forall i | 0 <= i < 64 ensures digest[i] == '0' { assert digest[i] in digest; }
    }
    forall path: string ensures EndsWith(path, SAMPLE) == IsSample(path) {
      if EndsWith(path, SAMPLE) { assert path[|path| - |SAMPLE|..] == SAMPLE; }
    }
    var x, y := BlankAll(a).changedFiles, BlankAll(b).changedFiles;
    if SameDraft(a, b) {
      assert |x| == |a.changedFiles| && |y| == |b.changedFiles|;
      forall i | 0 <= i < |x| ensures x[i] == Blank(a.changedFiles[i]) && y[i] == Blank(b.changedFiles[i])
        && x[i] == y[i] {}
    }
    if forall f | f in a.changedFiles && IsSample(f.path) :: IsZeros(f.sha256) { assert BlankAll(a) == a; }
  }

  lemma NoSecondFileList(m: Manifest)
    requires ProperManifest(m)
    ensures "changed_files" !in MeaningOf(m.others)
  {
    MeaningAt(m.others);
  }

  /** Two manifests have the same checksum exactly when they are the same draft. */
  lemma ChecksumBindsManifest(sha256: HashFunction, a: Manifest, b: Manifest)
    requires ProperManifest(a) && ProperManifest(b)
    requires CollisionFree(sha256, {ChecksumText(a), ChecksumText(b)})
    ensures sha256(ChecksumText(a)) == sha256(ChecksumText(b)) <==> SameDraft(a, b)
  {
    ChecksumTextBindsManifest(a, b);
  }

  lemma SplitManifest(a: Manifest, b: Manifest)
    requires "changed_files" !in MeaningOf(a.others) && "changed_files" !in MeaningOf(b.others)
    ensures MeaningOf(a.others)["changed_files" := Meaning(JsArray(FileValues(a.changedFiles)))]
         == MeaningOf(b.others)["changed_files" := Meaning(JsArray(FileValues(b.changedFiles)))]
      <==> MeaningOf(a.others) == MeaningOf(b.others) && a.changedFiles == b.changedFiles
  {
    var ma, mb := MeaningOf(a.others), MeaningOf(b.others);
    var va, vb := Meaning(JsArray(FileValues(a.changedFiles))), Meaning(JsArray(FileValues(b.changedFiles)));
    var fa, fb := ma["changed_files" := va], mb["changed_files" := vb];
    if fa == fb {
      assert va == fa["changed_files"] && vb == fb["changed_files"];
      FileListMeaning(a.changedFiles, b.changedFiles);
      assert ma == fa - {"changed_files"} && mb == fb - {"changed_files"};
    }
  }
}
