/** The patch applied to the Control UI's bundles at build time
    (src/patch-control-ui-instance.js): every `index-*.js` bundle in the assets directory gets
    an `instanceId` property inserted into the object literal that opens the web-chat client,
    so that the browser keeps one instance id across reloads. Reading and writing files is done
    by the caller of this model: file contents come in as values and the writes go out as values. */
module ControlUiPatch {
  import opened Text

  /** `INSTANCE_STORAGE_KEY`: the local-storage key the inserted code uses, and the marker of a
      bundle that is already patched. */
  const StorageKey: string := "openclaw.control.instance-id.v1"

  /** The first capture group of the target pattern: the text the insertion follows. */
  const Head: string := "clientName:\"openclaw-control-ui\",mode:\"webchat\","

  /** The second capture group: the text the insertion precedes. */
  const Tail: string := "onHello:"

  /** The text the target pattern matches (it has no metacharacters). */
  const Target: string := Head + Tail

  const ExprPrefix: string := "instanceId:(()=>{const e=\""

  // The verifier reads the characters of a string literal only when the literal is short, so
  // the statements below are written as a few pieces each, cut where the code has a boundary.

  /** The statement after the storage key that returns a stored id. */
  const ReadStored: string := "\";try{const t=localStorage.getItem(e);" + "if(t&&t.trim())return t;"
  /** The statement that makes a new id. */
  const NewId: string := "const n=(" + UuidTest + UuidCall + RandomText + ");"
  /** The test for `crypto.randomUUID`, the call when it passes, and the fallback. */
  const UuidTest: string := "globalThis.crypto&&" + "typeof globalThis.crypto.randomUUID" + "==\"function\"?"
  const UuidCall: string := "globalThis.crypto.randomUUID():"
  const RandomText: string := "Math.random().toString(36).slice(2)+" + "Date.now().toString(36)"
  /** The statements that store and return it, with a fixed id when local storage throws. */
  const StoreNew: string := "localStorage.setItem(e,n);return n}" + "catch{return\"openclaw-control-ui\"}})(),"
  const ExprSuffix: string := ReadStored + NewId + StoreNew

  /** `instanceExpr`: a property whose value reads the instance id from local storage under
      the storage key, creating and storing a fresh one when there is none. */
  const InstanceExpr: string := ExprPrefix + StorageKey + ExprSuffix

  /** What `patchBundle` decides about a bundle's text. */
  datatype PatchOutcome =
    | AlreadyPatched
    | PatternNotFound
    | Unchanged
    | Patched(text: string)

  /** `source.replace(target, "$1" + instanceExpr + "$2")` where the target first matches at
      `i`: the matched text is replaced by the first group, the expression and the second group. */
  function ReplaceAt(source: string, i: nat): (r: string)
    requires OccursAt(source, Target, i)
    ensures |r| == |source| + |InstanceExpr|
  {
    source[..i] + Head + InstanceExpr + Tail + source[i + |Target|..]
  }

  /** The patch decision of `patchBundle` on the text it read. */
  function PatchSource(source: string): (r: PatchOutcome)
    ensures r == AlreadyPatched <==> Contains(source, StorageKey)
    ensures r == PatternNotFound <==> !Contains(source, StorageKey) && !Contains(source, Target)
  {
    if IndexOf(source, StorageKey).Some? then AlreadyPatched
    else
      match IndexOf(source, Target)
      case None => PatternNotFound
      case Some(i) =>
        var patched := ReplaceAt(source, i);
        if patched == source then Unchanged else Patched(patched)
  }

  /** Splits the text around the insertion point. */
  lemma ReplaceAtSplits(source: string, i: nat)
    requires OccursAt(source, Target, i)
    ensures ReplaceAt(source, i) == source[..i + |Head|] + InstanceExpr + source[i + |Head|..]
  {
    InsertBetween(source, i, Head, InstanceExpr, Tail);
  }

  /** Putting `ins` between the two halves of an occurrence of `head + tail` at `i` is putting
      it at the end of `head`. */
  lemma InsertBetween(source: string, i: nat, head: string, ins: string, tail: string)
    requires OccursAt(source, head + tail, i)
    ensures source[..i] + head + ins + tail + source[i + |head| + |tail|..]
         == source[..i + |head|] + ins + source[i + |head|..]
  {
    BeforeInsertion(source, i, head, tail);
    AfterInsertion(source, i, head, tail);
  }

  lemma BeforeInsertion(source: string, i: nat, head: string, tail: string)
    requires OccursAt(source, head + tail, i)
    ensures source[..i + |head|] == source[..i] + head
  {
    assert source[i..i + |head|] == (head + tail)[..|head|];
  }

  lemma AfterInsertion(source: string, i: nat, head: string, tail: string)
    requires OccursAt(source, head + tail, i)
    ensures source[i + |head|..] == tail + source[i + |head| + |tail|..]
  {
    assert source[i + |head|..i + |head| + |tail|] == (head + tail)[|head|..];
  }

  /** A bundle that is patched gets the expression inserted right after the first occurrence
      of `clientName:"openclaw-control-ui",mode:"webchat",` that is followed by `onHello:`;
      every other character is kept, in order. */
  lemma PatchInsertsAtFirstMatch(source: string)
    requires PatchSource(source).Patched?
    ensures exists i: nat ::
              && OccursAt(source, Target, i)
              && (forall j: nat :: j < i ==> !OccursAt(source, Target, j))
              && PatchSource(source).text == source[..i + |Head|] + InstanceExpr + source[i + |Head|..]
  {
    var i := IndexOf(source, Target).value;
    ReplaceAtSplits(source, i);
  }

  /** The expression carries the storage key. */
  lemma KeyInExpr()
    ensures OccursAt(InstanceExpr, StorageKey, |ExprPrefix|)
  {
    assert InstanceExpr[|ExprPrefix|..|ExprPrefix| + |StorageKey|] == StorageKey;
  }

  /** Text that carries the storage key still does after something is put around it. */
  lemma OccursInContext(s: string, t: string, k: nat, before: string, after: string)
    requires OccursAt(s, t, k)
    ensures OccursAt(before + s + after, t, |before| + k)
  {
    var whole := before + s + after;
    assert whole[|before| + k..|before| + k + |t|] == s[k..k + |t|];
  }

  /** Patching a second time changes nothing: a patched bundle carries the storage key, so it
      is recognised as already patched. */
  lemma PatchIdempotent(source: string)
    requires PatchSource(source).Patched?
    ensures PatchSource(PatchSource(source).text) == AlreadyPatched
  {
    var i := IndexOf(source, Target).value;
    ReplaceAtSplits(source, i);
    CarriesKey(source[..i + |Head|], source[i + |Head|..]);
  }

  /** Any text the expression is inserted into carries the storage key. */
  lemma CarriesKey(before: string, after: string)
    ensures Contains(before + InstanceExpr + after, StorageKey)
  {
    KeyInExpr();
    OccursInContext(InstanceExpr, StorageKey, |ExprPrefix|, before, after);
  }

  /** The `patched === source` branch is never taken: when the target is found the text grows
      by the length of the expression. */
  lemma NeverUnchanged(source: string)
    ensures !PatchSource(source).Unchanged?
  {
    if IndexOf(source, StorageKey).None? && IndexOf(source, Target).Some? {
      assert |InstanceExpr| > 0 by {
        assert |StorageKey| > 0;
      }
    }
  }

  lemma ReadStoredNoDollar() ensures '$' !in ReadStored {}
  lemma UuidTestNoDollar() ensures '$' !in UuidTest {}
  lemma UuidCallNoDollar() ensures '$' !in UuidCall {}
  lemma RandomTextNoDollar() ensures '$' !in RandomText {}

  lemma NewIdNoDollar()
    ensures '$' !in NewId
  {
    UuidTestNoDollar();
    UuidCallNoDollar();
    RandomTextNoDollar();
  }
  lemma StoreNewNoDollar() ensures '$' !in StoreNew {}
  lemma PrefixNoDollar() ensures '$' !in ExprPrefix {}
  lemma KeyNoDollar() ensures '$' !in StorageKey {}

  lemma SuffixNoDollar()
    ensures '$' !in ExprSuffix
  {
    ReadStoredNoDollar();
    NewIdNoDollar();
    StoreNewNoDollar();
  }

  /** The expression is inserted literally: it contains no `$`, so no replacement pattern
      (`$1`, `$&`, `$$` and the like) inside it is expanded. */
  lemma NoReplacementPatterns()
    ensures '$' !in InstanceExpr
  {
    PrefixNoDollar();
    KeyNoDollar();
    SuffixNoDollar();
  }

  /** What `patchBundle(filePath)` returns and writes, given what reading the file gave (None
      when the read failed). */
  datatype BundleResult = BundleResult(patched: bool, written: Option<string>)

  function PatchBundle(contents: Option<string>): (r: BundleResult)
    ensures r.patched <==> r.written.Some?
    ensures contents.None? ==> !r.patched
    ensures r.patched ==> PatchSource(contents.value).Patched? && r.written.value == PatchSource(contents.value).text
    ensures contents.Some? && !r.patched ==> !PatchSource(contents.value).Patched?
  {
    match contents
    case None => BundleResult(false, None)
    case Some(source) =>
      match PatchSource(source)
      case Patched(text) => BundleResult(true, Some(text))
      case _ => BundleResult(false, None)
  }

  /** A directory entry: its name and whether it is a regular file. */
  datatype Entry = Entry(name: string, isFile: bool)

  /** `/^index-.*\.js$/.test(name)`: `index-`, then characters other than line terminators,
      then `.js`. */
  predicate IsBundleName(name: string) {
    && |name| >= 9
    && StartsWith(name, "index-")
    && EndsWith(name, ".js")
    && NoLineTerminator(name[6..|name| - 3])
  }

  /** The names of the entries `run` patches, in directory order. */
  function BundleFiles(entries: seq<Entry>): (names: seq<string>)
    ensures |names| <= |entries|
    ensures forall n :: n in names ==> IsBundleName(n) && exists e :: e in entries && e.isFile && e.name == n
    ensures forall e :: e in entries && e.isFile && IsBundleName(e.name) ==> e.name in names
  {
    if entries == [] then []
    else
      var rest := BundleFiles(entries[..|entries| - 1]);
      var e := entries[|entries| - 1];
      if e.isFile && IsBundleName(e.name) then rest + [e.name] else rest
  }

  /** The filter keeps directory order: the bundles of two listings read one after the
      other are the bundles of the first followed by those of the second. */
  lemma {:induction false} BundleFilesConcat(first: seq<Entry>, second: seq<Entry>)
    ensures BundleFiles(first + second) == BundleFiles(first) + BundleFiles(second)
    decreases |second|
  {
    if second == [] {
      assert first + second == first;
    } else {
      var init := second[..|second| - 1];
      assert (first + second)[..|first + second| - 1] == first + init;
      BundleFilesConcat(first, init);
    }
  }

  /** What `patchBundle` writes to the file at `path`, if anything. */
  function NewContents(path: string, readFile: string -> Option<string>): Option<string> {
    PatchBundle(readFile(path)).written
  }

  /** The files `patchBundle` rewrites, among `files`, each with its new contents, in order. */
  function Writes(files: seq<string>, readFile: string -> Option<string>): (w: seq<(string, string)>)
    ensures |w| <= |files|
    ensures forall p :: p in w ==> p.0 in files && NewContents(p.0, readFile) == Some(p.1)
    ensures forall f :: f in files && NewContents(f, readFile).Some? ==> (f, NewContents(f, readFile).value) in w
  {
    if files == [] then []
    else
      var init := files[..|files| - 1];
      var rest := Writes(init, readFile);
      var f := files[|files| - 1];
      assert files == init + [f];
      match NewContents(f, readFile)
      case None => rest
      case Some(text) =>
        rest + [(f, text)]
  }

  /** How `run` ends. */
  datatype RunOutcome =
    | AssetsMissing
    | NoBundles
    | Finished(patchedCount: nat, total: nat)

  /** `run()`: lists the assets directory (None when it cannot be read), patches each bundle
      and counts the patched ones. `readFile` gives each bundle's contents; `writes` are the
      files written with their new contents, in order. */
  method Run(entries: Option<seq<Entry>>, readFile: string -> Option<string>)
    returns (outcome: RunOutcome, writes: seq<(string, string)>)
    ensures entries.None? ==> outcome == AssetsMissing && writes == []
    ensures entries.Some? && BundleFiles(entries.value) == [] ==> outcome == NoBundles && writes == []
    ensures entries.Some? && BundleFiles(entries.value) != [] ==>
      && writes == Writes(BundleFiles(entries.value), readFile)
      && outcome == Finished(|writes|, |BundleFiles(entries.value)|)
      && outcome.patchedCount <= outcome.total
  {
    if entries.None? {
      return AssetsMissing, [];
    }
    var files := BundleFiles(entries.value);
    if |files| == 0 {
      return NoBundles, [];
    }
    var patchedCount;
    patchedCount, writes := PatchAll(files, readFile);
    outcome := Finished(patchedCount, |files|);
  }

  /** The loop of `run`: patches the bundles in order and counts those patched. */
  method PatchAll(files: seq<string>, readFile: string -> Option<string>)
    returns (patchedCount: nat, writes: seq<(string, string)>)
    ensures writes == Writes(files, readFile) && patchedCount == |writes| <= |files|
  {
    patchedCount, writes := 0, [];
    for i := 0 to |files|
      invariant writes == Writes(files[..i], readFile)
      invariant patchedCount == |writes|
    {
      WritesOfLonger(files, i, readFile);
      match NewContents(files[i], readFile)
      case Some(text) =>
        writes := writes + [(files[i], text)];
        patchedCount := patchedCount + 1;
      case None =>
    }
    assert files[..|files|] == files;
  }

  lemma WritesOfLonger(files: seq<string>, i: nat, readFile: string -> Option<string>)
    requires i < |files|
    ensures Writes(files[..i + 1], readFile) ==
      Writes(files[..i], readFile) + (match NewContents(files[i], readFile)
                                      case None => []
                                      case Some(text) => [(files[i], text)])
  {
    assert files[..i + 1][..i] == files[..i];
  }
}
