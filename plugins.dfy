/**
 * The plugin record of the GUI (`Plugin` in plugin.js): the raw data the engine sends,
 * the display fields the constructor derives from it, the search predicate `isVisible`,
 * and the dashboard counters that the record's change observer keeps in step.
 */
module Plugins {
  import opened Wrappers
  import opened Text
  import opened Seqs
  import opened Numerals

  // ---------------------------------------------------------------- data model

  /** A message as the engine sends it: its type and its localised content strings. */
  datatype RawMessage = RawMessage(kind: string, content: seq<string>)

  /**
   * A message as the record holds it. `text` is the first content string; the record and
   * the filters read it under two different shapes, which this model does not tell apart.
   */
  datatype Message = Message(kind: string, text: string, hidden: bool)

  /** A Bash Tag directive; a leading `-` on the name means "removed". */
  datatype RawTag = RawTag(name: string)

  /** A masterlist or userlist metadata block, reduced to the keys it has. */
  datatype Metadata = Metadata(keys: set<string>)

  /** The fields the engine's snapshot of one plugin carries; `None` stands for an absent field. */
  datatype RawPlugin = RawPlugin(
    name: string,
    version: string,
    isActive: bool,
    isEmpty: bool,
    isMaster: bool,
    loadsBSA: bool,
    masterlist: Option<Metadata>,
    userlist: Option<Metadata>,
    modPriority: Option<int>,
    isGlobalPriority: bool,
    isDirty: bool,
    crc: Option<nat>,
    messages: Option<seq<RawMessage>>,
    tags: Option<seq<RawTag>>)

  /** The `crc` field: the display string the constructor made, or a raw number a merge stored. */
  datatype CrcField = CrcString(text: string) | CrcNumber(number: nat)

  /** The `tags` field: the two display strings the constructor made, or a raw list a merge stored. */
  datatype TagsField = TagStrings(added: string, removed: string) | TagList(list: seq<RawTag>)

  /** The data fields of a record that a conflict merge rewrites and the observer counts. */
  datatype PluginState = PluginState(
    isEmpty: bool,
    isDirty: bool,
    crc: CrcField,
    messages: seq<Message>,
    tags: TagsField)

  // ---------------------------------------------------------------- _convCrc

  const CrcModulus: nat := 0x1_0000_0000

  /** `_convCrc`: empty for an absent or zero CRC, else the last 8 characters of the upper-case hex, zero-padded. */
  function ConvCrc(crc: Option<nat>): (r: string)
    ensures r == "" <==> crc.None? || crc.value == 0
  {
    if crc.None? || crc.value == 0 then ""
    else
      var padded := "00000000" + UpperHex(crc.value);
      padded[|padded| - 8..]
  }

  /** The upper-case hex digits JavaScript writes for `n`, before padding. */
  function UpperHex(n: nat): string {
    ToUpper(ToRadix(n, 16))
  }

  /** Eight hex digits span the 32-bit range. */
  lemma HexPow8()
    ensures Pow(16, 8) == CrcModulus
  {
  }

  /** The zero-padded hex digits denote `n`. */
  lemma PaddedValue(n: nat)
    ensures Value("00000000" + UpperHex(n), 16) == n
  {
    var zeros := "00000000";
    assert forall i :: 0 <= i < |zeros| ==> zeros[i] == '0';
    ValueOfZeroPadded(zeros, UpperHex(n), 16);
    ValueOfUpper(ToRadix(n, 16), 16);
    ValueOfRadix(n, 16);
  }

  /** The zero-padded hex digits are all upper-case hex digits. */
  lemma PaddedDigits(n: nat)
    ensures var padded := "00000000" + UpperHex(n);
      forall i :: 0 <= i < |padded| ==> IsUpperHexDigit(padded[i]) && DigitValue(padded[i]) < 16
  {
    RadixDigits(n, 16);
  }

  /** A non-zero CRC gives exactly 8 upper-case hex digits whose value is the CRC modulo 2^32. */
  lemma ConvCrcFormat(n: nat)
    requires n != 0
    ensures var r := ConvCrc(Some(n));
      |r| == 8 && (forall i :: 0 <= i < |r| ==> IsUpperHexDigit(r[i])) && Value(r, 16) == n % CrcModulus
  {
    var padded := "00000000" + UpperHex(n);
    var r := padded[|padded| - 8..];
    assert ConvCrc(Some(n)) == r;
    PaddedDigits(n);
    assert forall i :: 0 <= i < |r| ==> r[i] == padded[|padded| - 8 + i];
    ValueOfSuffix(padded, 16, 8);
    PaddedValue(n);
    HexPow8();
  }

  /** Below 2^32 the CRC string is the hex digits left-padded with `'0'` to 8 characters. */
  lemma ConvCrcPadded(n: nat)
    requires 0 < n < CrcModulus
    ensures |UpperHex(n)| <= 8
    ensures ConvCrc(Some(n)) == seq(8 - |UpperHex(n)|, _ => '0') + UpperHex(n)
  {
    RadixLength(n, 16, 8);
    HexPow8();
    var h := UpperHex(n);
    var padded := "00000000" + h;
    assert padded[|padded| - 8..] == seq(8 - |h|, _ => '0') + h;
  }

  /** From 2^32 on, the hex digits are longer than 8 and only the last 8 are kept. */
  lemma ConvCrcTruncates(n: nat)
    requires n >= CrcModulus
    ensures |UpperHex(n)| > 8
    ensures ConvCrc(Some(n)) == UpperHex(n)[|UpperHex(n)| - 8..]
  {
    RadixLength(n, 16, 8);
    HexPow8();
    var h := UpperHex(n);
    var padded := "00000000" + h;
    assert padded[|padded| - 8..] == h[|h| - 8..];
  }

  // ---------------------------------------------------------------- _convMessages

  /** Every message has a first content string, so `content[0].str` does not throw. */
  predicate HasContents(messages: Option<seq<RawMessage>>) {
    messages.Some? ==> forall i :: 0 <= i < |messages.value| ==> |messages.value[i].content| > 0
  }

  /** `ms` is `raw` flattened: same length and order, same types, first content string, not hidden. */
  predicate IsFlattened(raw: Option<seq<RawMessage>>, ms: seq<Message>) {
    if raw.None? then ms == []
    else
      |ms| == |raw.value|
      && forall i :: 0 <= i < |ms| ==>
           |raw.value[i].content| > 0 && ms[i] == Message(raw.value[i].kind, raw.value[i].content[0], false)
  }

  /** `_convMessages`. */
  method ConvMessages(messages: Option<seq<RawMessage>>) returns (r: Result<seq<Message>>)
    ensures r.Ok? <==> HasContents(messages)
    ensures r.Ok? ==> IsFlattened(messages, r.value)
    ensures r.Err? ==> r.error == MissingContent
  {
    var result: seq<Message> := [];
    if messages.Some? {
      var ms := messages.value;
      for i := 0 to |ms|
        invariant |result| == i
        invariant forall k :: 0 <= k < i ==>
          |ms[k].content| > 0 && result[k] == Message(ms[k].kind, ms[k].content[0], false)
      {
        if |ms[i].content| == 0 {
          return Err(MissingContent);
        }
        result := result + [Message(ms[i].kind, ms[i].content[0], false)];
      }
    }
    return Ok(result);
  }

  // ---------------------------------------------------------------- _convTags: partition

  predicate IsRemoval(name: string) {
    |name| > 0 && name[0] == '-'
  }

  /** The names of the tags without a leading `-`, in order. */
  function AddedNames(tags: seq<RawTag>): seq<string> {
    if tags == [] then []
    else
      var last := tags[|tags| - 1];
      AddedNames(tags[..|tags| - 1]) + (if IsRemoval(last.name) then [] else [last.name])
  }

  /** The names of the tags with a leading `-`, prefix stripped, in order. */
  function RemovedNames(tags: seq<RawTag>): seq<string> {
    if tags == [] then []
    else
      var last := tags[|tags| - 1];
      RemovedNames(tags[..|tags| - 1]) + (if IsRemoval(last.name) then [last.name[1..]] else [])
  }

  function AddedOf(tags: Option<seq<RawTag>>): seq<string> {
    if tags.None? then [] else AddedNames(tags.value)
  }

  function RemovedOf(tags: Option<seq<RawTag>>): seq<string> {
    if tags.None? then [] else RemovedNames(tags.value)
  }

  /** The first loop of `_convTags`. */
  method PartitionTags(tags: Option<seq<RawTag>>) returns (added: seq<string>, removed: seq<string>)
    ensures added == AddedOf(tags) && removed == RemovedOf(tags)
  {
    added, removed := [], [];
    if tags.Some? {
      var ts := tags.value;
      for i := 0 to |ts|
        invariant added == AddedNames(ts[..i]) && removed == RemovedNames(ts[..i])
      {
        assert ts[..i + 1][..i] == ts[..i];
        if |ts[i].name| > 0 && ts[i].name[0] == '-' {
          removed := removed + [ts[i].name[1..]];
        } else {
          added := added + [ts[i].name];
        }
      }
      assert ts[..|ts|] == ts;
    }
  }

  lemma {:induction false} PartitionSizes(tags: seq<RawTag>)
    ensures |AddedNames(tags)| + |RemovedNames(tags)| == |tags|
  {
    if tags != [] {
      PartitionSizes(tags[..|tags| - 1]);
    }
  }

  lemma {:induction false} PartitionPrefix(tags: seq<RawTag>, j: nat)
    requires j <= |tags|
    ensures AddedNames(tags[..j]) <= AddedNames(tags)
    ensures RemovedNames(tags[..j]) <= RemovedNames(tags)
    decreases |tags|
  {
    if j < |tags| {
      var init := tags[..|tags| - 1];
      assert init[..j] == tags[..j];
      PartitionPrefix(init, j);
    } else {
      assert tags[..j] == tags;
    }
  }

  /**
   * Each tag lands in exactly one list, behind the tags before it that went to the same list:
   * removals (prefix stripped) in the removed list, all others in the added list.
   */
  lemma PartitionPlacesEachTag(tags: seq<RawTag>, i: nat)
    requires i < |tags|
    ensures var a, r := |AddedNames(tags[..i])|, |RemovedNames(tags[..i])|;
      if IsRemoval(tags[i].name)
      then r < |RemovedNames(tags)| && RemovedNames(tags)[r] == tags[i].name[1..]
      else a < |AddedNames(tags)| && AddedNames(tags)[a] == tags[i].name
  {
    PartitionPrefix(tags, i + 1);
    assert tags[..i + 1][..i] == tags[..i];
  }

  // ---------------------------------------------------------------- _convTags: resolution

  /** Two tag names are the same tag when they agree after lower-casing. */
  predicate SameTag(a: string, b: string) {
    ToLower(a) == ToLower(b)
  }

  predicate MatchesAny(x: string, removed: seq<string>) {
    exists j :: 0 <= j < |removed| && SameTag(removed[j], x)
  }

  /** The added names that no removed name matches, in order: what the resolution loop should leave. */
  function Survivors(added: seq<string>, removed: seq<string>): seq<string> {
    if added == [] then []
    else
      var last := added[|added| - 1];
      Survivors(added[..|added| - 1], removed) + (if MatchesAny(last, removed) then [] else [last])
  }

  /** `x` matches a removed name that is not the last one, so the inner loop goes on after splicing `x`. */
  predicate MatchesBeforeLast(x: string, removed: seq<string>) {
    exists j :: 0 <= j < |removed| - 1 && SameTag(removed[j], x)
  }

  predicate AllMatch(s: seq<string>, removed: seq<string>) {
    forall u :: 0 <= u < |s| ==> MatchesAny(s[u], removed)
  }

  /**
   * The resolution loop reads `tagsAdded[-1]`: some added name of the leading run of names that
   * are all spliced out while sitting at index 0 stays compared with the following removed names.
   */
  predicate ResolutionThrows(added: seq<string>, removed: seq<string>) {
    exists t :: 0 <= t < |added| && AllMatch(added[..t], removed) && MatchesBeforeLast(added[t], removed)
  }

  lemma {:induction false} SurvivorsMatchNothing(added: seq<string>, removed: seq<string>)
    ensures forall k :: 0 <= k < |Survivors(added, removed)| ==> !MatchesAny(Survivors(added, removed)[k], removed)
  {
    if added != [] {
      SurvivorsMatchNothing(added[..|added| - 1], removed);
    }
  }

  lemma {:induction false} SurvivorsEmpty(added: seq<string>, removed: seq<string>)
    ensures Survivors(added, removed) == [] <==> AllMatch(added, removed)
  {
    if added != [] {
      var init := added[..|added| - 1];
      SurvivorsEmpty(init, removed);
      assert forall u :: 0 <= u < |init| ==> init[u] == added[u];
    }
  }

  lemma ThrowsExtend(s: seq<string>, x: string, removed: seq<string>)
    ensures ResolutionThrows(s + [x], removed) <==>
      ResolutionThrows(s, removed) || (AllMatch(s, removed) && MatchesBeforeLast(x, removed))
  {
    var s' := s + [x];
    assert s'[..|s|] == s;
    assert forall t :: 0 <= t < |s| ==> s'[..t] == s[..t] && s'[t] == s[t];
    if ResolutionThrows(s', removed) {
      var t :| 0 <= t < |s'| && AllMatch(s'[..t], removed) && MatchesBeforeLast(s'[t], removed);
      if t < |s| {
        assert AllMatch(s[..t], removed) && MatchesBeforeLast(s[t], removed);
      }
    }
  }

  /** One pass of the outer resolution loop: the survivors grow by `added0[p]` unless some removed name matches it. */
  lemma {:induction false} ResolveStep(added0: seq<string>, removed: seq<string>, p: nat)
    requires p < |added0|
    requires !ResolutionThrows(added0[..p], removed)
    requires Survivors(added0[..p], removed) == [] ==> !MatchesBeforeLast(added0[p], removed)
    ensures Survivors(added0[..p + 1], removed) ==
      Survivors(added0[..p], removed) + (if MatchesAny(added0[p], removed) then [] else [added0[p]])
    ensures !ResolutionThrows(added0[..p + 1], removed)
  {
    var x := added0[p];
    assert added0[..p + 1] == added0[..p] + [x];
    assert added0[..p + 1][..p] == added0[..p];
    ThrowsExtend(added0[..p], x, removed);
    SurvivorsEmpty(added0[..p], removed);
  }

  /** The read of `tagsAdded[-1]` happens only on inputs `ResolutionThrows` describes. */
  lemma {:induction false} ResolveCrash(added0: seq<string>, removed: seq<string>, p: nat)
    requires p < |added0|
    requires Survivors(added0[..p], removed) == []
    requires MatchesBeforeLast(added0[p], removed)
    ensures ResolutionThrows(added0, removed)
  {
    var x := added0[p];
    SurvivorsEmpty(added0[..p], removed);
    assert added0[..p + 1] == added0[..p] + [x];
    ThrowsExtend(added0[..p], x, removed);
    ThrowsPrefix(added0, p + 1, removed);
  }

  /**
   * The inner loop of the resolution for the name at `i0`: it is spliced out at the first
   * removed name that matches it; if it sat at index 0, the next removed name is compared with
   * `tagsAdded[-1]`, which throws.
   */
  method SpliceMatch(added: seq<string>, i0: int, removed: seq<string>) returns (r: Result<(seq<string>, int)>)
    requires 0 <= i0 < |added|
    requires forall k :: 0 <= k < i0 ==> !MatchesAny(added[k], removed)
    ensures r.Err? <==> i0 == 0 && MatchesBeforeLast(added[0], removed)
    ensures r.Err? ==> r.error == IndexBeforeStart
    ensures r.Ok? ==> (r.value ==
      if MatchesAny(added[i0], removed) then (added[..i0] + added[i0 + 1..], i0 - 1) else (added, i0))
  {
    var x := added[i0];
    var cur, i := added, i0;
    ghost var matched := false;
    var j := 0;
    while j < |removed|
      invariant 0 <= j <= |removed|
      invariant !matched ==> cur == added && i == i0 && forall k :: 0 <= k < j ==> !SameTag(removed[k], x)
      invariant matched ==> cur == added[..i0] + added[i0 + 1..] && i == i0 - 1
      invariant matched ==> exists k :: 0 <= k < j && SameTag(removed[k], x)
      invariant matched && i < 0 ==> forall k :: 0 <= k < j - 1 ==> !SameTag(removed[k], x)
      invariant matched && i >= 0 ==> cur[i] == added[i] && !MatchesAny(cur[i], removed)
    {
      if i < 0 {
        // `tagsAdded[-1]` is undefined, and `undefined.toLowerCase()` throws.
        assert SameTag(removed[j - 1], x);
        return Err(IndexBeforeStart);
      }
      if ToLower(removed[j]) == ToLower(cur[i]) {
        cur := cur[..i] + cur[i + 1..];
        i := i - 1;
        matched := true;
      }
      j := j + 1;
    }
    return Ok((cur, i));
  }

  /** Before a pass of the outer loop: the survivors so far precede the next added name, and none of them matches. */
  lemma ResolveReady(added0: seq<string>, removed: seq<string>, p: nat, added: seq<string>)
    requires p < |added0| && added == Survivors(added0[..p], removed) + added0[p..]
    ensures |Survivors(added0[..p], removed)| < |added|
    ensures added[|Survivors(added0[..p], removed)|] == added0[p]
    ensures forall k :: 0 <= k < |Survivors(added0[..p], removed)| ==> !MatchesAny(added[k], removed)
  {
    SurvivorsMatchNothing(added0[..p], removed);
  }

  /** After a pass of the outer loop: the list is the survivors of one more added name, then the rest. */
  lemma ResolveAdvance(added0: seq<string>, removed: seq<string>, p: nat, added: seq<string>, out: seq<string>)
    requires p < |added0| && added == Survivors(added0[..p], removed) + added0[p..]
    requires Survivors(added0[..p + 1], removed) ==
      Survivors(added0[..p], removed) + (if MatchesAny(added0[p], removed) then [] else [added0[p]])
    requires var i := |Survivors(added0[..p], removed)|;
      out == if MatchesAny(added0[p], removed) then added[..i] + added[i + 1..] else added
    ensures out == Survivors(added0[..p + 1], removed) + added0[p + 1..]
  {
    SplitAt(added0, p);
    Splice(Survivors(added0[..p], removed), added0[p], added0[p + 1..]);
  }

  /** The second loop of `_convTags`, including the read of `tagsAdded[-1]`. */
  method ResolveTags(added0: seq<string>, removed: seq<string>) returns (r: Result<seq<string>>)
    ensures r.Err? <==> ResolutionThrows(added0, removed)
    ensures r.Err? ==> r.error == IndexBeforeStart
    ensures r.Ok? ==> r.value == Survivors(added0, removed)
  {
    var added := added0;
    var i: int := 0;
    ghost var p: nat := 0;
    while i < |added|
      invariant p <= |added0|
      invariant added == Survivors(added0[..p], removed) + added0[p..]
      invariant i == |Survivors(added0[..p], removed)|
      invariant !ResolutionThrows(added0[..p], removed)
      decreases |added0| - p
    {
      ResolveReady(added0, removed, p, added);
      var step := SpliceMatch(added, i, removed);
      if step.Err? {
        ResolveCrash(added0, removed, p);
        return Err(step.error);
      }
      ResolveStep(added0, removed, p);
      ResolveAdvance(added0, removed, p, added, step.value.0);
      added, i := step.value.0, step.value.1;
      p := p + 1;
      i := i + 1;
    }
    WholePrefix(added0, p);
    return Ok(added);
  }

  lemma ThrowsPrefix(s: seq<string>, n: nat, removed: seq<string>)
    requires n <= |s|
    ensures ResolutionThrows(s[..n], removed) ==> ResolutionThrows(s, removed)
  {
    if ResolutionThrows(s[..n], removed) {
      var t :| 0 <= t < n && AllMatch(s[..n][..t], removed) && MatchesBeforeLast(s[..n][t], removed);
      assert s[..n][..t] == s[..t];
    }
  }

  /** What resolution leaves is an order-preserving sub-list of the added names: exactly those no removed name matches. */
  lemma {:induction false} SurvivorsSpec(added: seq<string>, removed: seq<string>)
    ensures IsSubsequence(Survivors(added, removed), added)
    ensures forall x :: x in Survivors(added, removed) <==> x in added && !MatchesAny(x, removed)
  {
    if added != [] {
      var init, last := added[..|added| - 1], added[|added| - 1];
      SurvivorsSpec(init, removed);
      SurvivorsMatchNothing(init, removed);
      assert added == init + [last];
      var s := Survivors(init, removed);
      if MatchesAny(last, removed) {
        assert Survivors(added, removed) == s;
        assert added[..|added| - 1] == init;
        assert s != [] ==> s[|s| - 1] != last;
      } else {
        assert Survivors(added, removed)[..|s|] == s;
      }
    }
  }

  /** Without a clash the added list is left alone and the loop cannot reach `tagsAdded[-1]`. */
  lemma {:induction false} NoClashKeepsAll(added: seq<string>, removed: seq<string>)
    requires forall k :: 0 <= k < |added| ==> !MatchesAny(added[k], removed)
    ensures Survivors(added, removed) == added
    ensures !ResolutionThrows(added, removed)
  {
    if added != [] {
      var init := added[..|added| - 1];
      NoClashKeepsAll(init, removed);
      assert added == init + [added[|added| - 1]];
    }
    forall t | 0 <= t < |added|
      ensures !MatchesBeforeLast(added[t], removed)
    {
      BeforeLastMatches(added[t], removed);
    }
  }

  lemma BeforeLastMatches(x: string, removed: seq<string>)
    ensures MatchesBeforeLast(x, removed) ==> MatchesAny(x, removed)
  {
    if MatchesBeforeLast(x, removed) {
      var j :| 0 <= j < |removed| - 1 && SameTag(removed[j], x);
      assert 0 <= j < |removed| && SameTag(removed[j], x);
    }
  }

  /**
   * The crash depends on where the matching removed name sits: `Foo` against `-foo, -bar` reads
   * `tagsAdded[-1]`, while `Foo` against `-bar, -foo` ends the inner loop right after the splice.
   */
  lemma ResolutionExamples()
    ensures ResolutionThrows(["Foo"], ["foo", "bar"])
    ensures !ResolutionThrows(["Foo"], ["bar", "foo"])
    ensures Survivors(["Foo"], ["bar", "foo"]) == []
  {
    var added: seq<string> := ["Foo"];
    assert ToLower("Foo") == "foo";
    assert ToLower("bar") == "bar";
    assert ToLower("foo") == "foo";
    assert added[..0] == [];
    assert SameTag(["foo", "bar"][0], added[0]);
    assert MatchesBeforeLast(added[0], ["foo", "bar"]);
    assert !SameTag(["bar", "foo"][0], added[0]);
    assert SameTag(["bar", "foo"][1], added[0]);
    assert added[..|added| - 1] == [];
  }

  /** The two display strings `_convTags` returns. */
  function TagsOf(tags: Option<seq<RawTag>>): TagsField {
    TagStrings(Join(Survivors(AddedOf(tags), RemovedOf(tags)), ", "), Join(RemovedOf(tags), ", "))
  }

  /** `_convTags`: partition, resolve, join; the removed list is never altered by the resolution. */
  method ConvTags(tags: Option<seq<RawTag>>) returns (r: Result<TagsField>)
    ensures r.Err? <==> ResolutionThrows(AddedOf(tags), RemovedOf(tags))
    ensures r.Err? ==> r.error == IndexBeforeStart
    ensures r.Ok? ==> r.value == TagsOf(tags)
  {
    var added, removed := PartitionTags(tags);
    var resolved := ResolveTags(added, removed);
    if resolved.Err? {
      return Err(resolved.error);
    }
    return Ok(TagStrings(Join(resolved.value, ", "), Join(removed, ", ")));
  }

  // ---------------------------------------------------------------- the record

  /** `needle` occurs in the lower-cased `hay`: one clause of the search predicates. */
  predicate Found(hay: string, needle: string) {
    Contains(ToLower(hay), needle)
  }

  /** Some message, hidden ones skipped when `skipHidden`, contains `needle` in its lower-cased text. */
  function AnyMessageFound(ms: seq<Message>, needle: string, skipHidden: bool): (r: bool)
    ensures r <==> exists i :: 0 <= i < |ms| && (!skipHidden || !ms[i].hidden) && Found(ms[i].text, needle)
  {
    if ms == [] then false
    else
      var tail := AnyMessageFound(ms[1..], needle, skipHidden);
      assert forall i :: 1 <= i < |ms| ==> ms[1..][i - 1] == ms[i];
      ((!skipHidden || !ms[0].hidden) && Found(ms[0].text, needle)) || tail
  }

  /** More than one element is the same as two different elements. */
  lemma TwoDistinctMembers(s: set<string>)
    ensures |s| > 1 <==> exists a, b :: a in s && b in s && a != b
  {
    if |s| > 1 {
      var a :| a in s;
      var rest := s - {a};
      assert |rest| == |s| - 1;
      var b :| b in rest;
      assert a in s && b in s && a != b;
    }
    if a, b :| a in s && b in s && a != b {
      var rest := s - {a};
      assert |rest| == |s| - 1;
      assert b in rest;
    }
  }

  class Plugin {
    const name: string
    const version: string
    const isActive: bool
    const isMaster: bool
    const loadsBSA: bool
    const masterlist: Option<Metadata>
    const userlist: Option<Metadata>
    const modPriority: Option<int>
    const isGlobalPriority: bool
    /** The name with all whitespace removed, used as the card's element id. */
    const id: string

    var isEmpty: bool
    var isDirty: bool
    var crc: CrcField
    var messages: seq<Message>
    var tags: TagsField

    var isMenuOpen: bool
    var isEditorOpen: bool
    var isConflictFilterChecked: bool
    var isSearchResult: bool
    var versionHidden: bool
    var crcHidden: bool
    var tagsHidden: bool

    /** The record holds `raw`'s fields, the converted CRC, messages and tags, and a whitespace-free id. */
    predicate Reflects(raw: RawPlugin)
      reads this
    {
      name == raw.name && version == raw.version && isActive == raw.isActive
      && isEmpty == raw.isEmpty && isMaster == raw.isMaster && loadsBSA == raw.loadsBSA
      && masterlist == raw.masterlist && userlist == raw.userlist
      && modPriority == raw.modPriority && isGlobalPriority == raw.isGlobalPriority
      && isDirty == raw.isDirty && id == StripSpaces(raw.name)
      && crc == CrcString(ConvCrc(raw.crc)) && IsFlattened(raw.messages, messages) && tags == TagsOf(raw.tags)
    }

    /** No menu or editor open, no filter checked, nothing hidden. */
    predicate FreshUI()
      reads this
    {
      !isMenuOpen && !isEditorOpen && !isConflictFilterChecked && !isSearchResult
      && !versionHidden && !crcHidden && !tagsHidden
    }

    /** The assignments of the constructor, given the already converted messages and tags. */
    constructor (raw: RawPlugin, ms: seq<Message>, ts: TagsField)
      requires IsFlattened(raw.messages, ms) && ts == TagsOf(raw.tags)
      ensures Reflects(raw) && FreshUI()
    {
      name := raw.name;
      version := raw.version;
      isActive := raw.isActive;
      isEmpty := raw.isEmpty;
      isMaster := raw.isMaster;
      loadsBSA := raw.loadsBSA;
      masterlist := raw.masterlist;
      userlist := raw.userlist;
      modPriority := raw.modPriority;
      isGlobalPriority := raw.isGlobalPriority;
      isDirty := raw.isDirty;
      isMenuOpen, isEditorOpen, isConflictFilterChecked, isSearchResult := false, false, false, false;
      versionHidden, crcHidden, tagsHidden := false, false, false;
      id := StripSpaces(raw.name);
      crc := CrcString(ConvCrc(raw.crc));
      messages := ms;
      tags := ts;
    }

    /**
     * `new Plugin(obj)`: the CRC is converted first, then the messages (which throw on an empty
     * content list), then the tags (which throw when resolution reads `tagsAdded[-1]`).
     */
    static method Create(raw: RawPlugin) returns (r: Result<Plugin>)
      ensures r.Err? <==> !HasContents(raw.messages) || ResolutionThrows(AddedOf(raw.tags), RemovedOf(raw.tags))
      ensures r.Err? ==> r.error == if HasContents(raw.messages) then IndexBeforeStart else MissingContent
      ensures r.Ok? ==> fresh(r.value) && r.value.Reflects(raw) && r.value.FreshUI()
    {
      var ms := ConvMessages(raw.messages);
      if ms.Err? {
        return Err(ms.error);
      }
      var ts := ConvTags(raw.tags);
      if ts.Err? {
        return Err(ts.error);
      }
      var p := new Plugin(raw, ms.value, ts.value);
      return Ok(p);
    }

    /** `hasUserEdits`: a userlist entry is present and has at least two distinct keys. */
    function HasUserEdits(): (r: bool)
      ensures r <==> userlist.Some? && exists a, b :: a in userlist.value.keys && b in userlist.value.keys && a != b
    {
      if userlist.Some? then TwoDistinctMembers(userlist.value.keys); |userlist.value.keys| > 1
      else false
    }

    /** `priority`: empty for an absent or zero priority, else the canonical decimal literal of it. */
    function Priority(): (r: string)
      ensures r == "" <==> modPriority.None? || modPriority.value == 0
      ensures r != "" ==> IsCanonicalDecimal(r) && SignedValue(r) == modPriority.value
    {
      if modPriority.None? || modPriority.value == 0 then ""
      else
        DecimalRoundTrip(modPriority.value);
        Decimal(modPriority.value)
    }

    /**
     * `isVisible(needle)`: the name always counts, version, CRC and tags only while not hidden,
     * messages only while not hidden. A raw CRC or tag list left by a conflict merge throws once it is
     * read, and a match found earlier returns before that read.
     */
    function IsVisible(needle: string): (r: Result<bool>)
      reads this
      ensures Found(name, needle) ==> r == Ok(true)
      ensures needle == "" ==> r == Ok(true)
      ensures r.Err? ==> r.error == NotAString && ((!crcHidden && crc.CrcNumber?) || (!tagsHidden && tags.TagList?))
      ensures r.Err? ==> (!crcHidden && crc.CrcNumber?) || ((crcHidden || crc.CrcString?) && !tagsHidden && tags.TagList?)
      ensures !versionHidden && Found(version, needle) ==> r == Ok(true)
      ensures !crcHidden && crc.CrcString? && Found(crc.text, needle) ==> r == Ok(true)
      ensures ((crcHidden || crc.CrcString?) && !tagsHidden && tags.TagStrings?
        && (Found(tags.added, needle) || Found(tags.removed, needle))) ==> r == Ok(true)
      ensures (crcHidden || crc.CrcString?) && (tagsHidden || tags.TagStrings?) ==> r.Ok?
      ensures r.Ok? ==> (r.value <==>
        Found(name, needle)
        || (!versionHidden && Found(version, needle))
        || (!crcHidden && crc.CrcString? && Found(crc.text, needle))
        || (!tagsHidden && tags.TagStrings? && (Found(tags.added, needle) || Found(tags.removed, needle)))
        || exists i :: 0 <= i < |messages| && !messages[i].hidden && Found(messages[i].text, needle))
    {
      ContainsEmpty(ToLower(name));
      if Found(name, needle) || (!versionHidden && Found(version, needle)) then Ok(true)
      else if !crcHidden && crc.CrcNumber? then Err(NotAString)
      else if !crcHidden && Found(crc.text, needle) then Ok(true)
      else if !tagsHidden && tags.TagList? then Err(NotAString)
      else if !tagsHidden && (Found(tags.added, needle) || Found(tags.removed, needle)) then Ok(true)
      else Ok(AnyMessageFound(messages, needle, true))
    }

    /** The fields that can change after construction. */
    function State(): PluginState
      reads this
    {
      PluginState(isEmpty, isDirty, crc, messages, tags)
    }
  }

  // ---------------------------------------------------------------- _observer

  /** How many messages have type `kind`. */
  function CountKind(ms: seq<Message>, kind: string): nat {
    if ms == [] then 0
    else CountKind(ms[..|ms| - 1], kind) + (if ms[|ms| - 1].kind == kind then 1 else 0)
  }

  /** The positions of a type's messages, as a set. */
  function Positions(ms: seq<Message>, kind: string): set<int> {
    set i | 0 <= i < |ms| && ms[i].kind == kind
  }

  /** Appending a message adds its position exactly when it has the type. */
  lemma PositionsSnoc(ms: seq<Message>, kind: string)
    requires ms != []
    ensures Positions(ms, kind) ==
      Positions(ms[..|ms| - 1], kind) + (if ms[|ms| - 1].kind == kind then {|ms| - 1} else {})
  {
  }

  /** `CountKind` is the size of the set of positions holding a message of that type. */
  lemma {:induction false} CountKindSpec(ms: seq<Message>, kind: string)
    ensures CountKind(ms, kind) == |Positions(ms, kind)|
  {
    if ms != [] {
      CountKindSpec(ms[..|ms| - 1], kind);
      PositionsSnoc(ms, kind);
    }
  }

  /** The counting loops of the observer: `'warn'` and `'error'` messages. */
  method CountTypes(ms: seq<Message>) returns (warns: nat, errs: nat)
    ensures warns == CountKind(ms, "warn") && errs == CountKind(ms, "error")
  {
    warns, errs := 0, 0;
    for i := 0 to |ms|
      invariant warns == CountKind(ms[..i], "warn") && errs == CountKind(ms[..i], "error")
    {
      assert ms[..i + 1][..i] == ms[..i];
      if ms[i].kind == "warn" {
        warns := warns + 1;
      } else if ms[i].kind == "error" {
        errs := errs + 1;
      }
    }
    assert ms[..|ms|] == ms;
  }

  /** A snapshot of the five dashboard counters. */
  datatype Counters = Counters(filterTotal: int, total: int, warnings: int, errors: int, dirty: int)

  /** The message, warning, error and dirty-plugin counters the observer keeps. */
  class Dashboard {
    var filterTotalMessageNo: int
    var totalMessageNo: int
    var totalWarningNo: int
    var totalErrorNo: int
    var dirtyPluginNo: int

    function Counts(): Counters
      reads this
    {
      Counters(filterTotalMessageNo, totalMessageNo, totalWarningNo, totalErrorNo, dirtyPluginNo)
    }

    /** The observer's reaction to a replaced `messages` list: each counter moves by the change in its count. */
    method ObserveMessages(oldValue: seq<Message>, newValue: seq<Message>)
      modifies this
      ensures filterTotalMessageNo == old(filterTotalMessageNo) + |newValue| - |oldValue|
      ensures totalMessageNo == old(totalMessageNo) + |newValue| - |oldValue|
      ensures totalWarningNo == old(totalWarningNo) + CountKind(newValue, "warn") - CountKind(oldValue, "warn")
      ensures totalErrorNo == old(totalErrorNo) + CountKind(newValue, "error") - CountKind(oldValue, "error")
      ensures dirtyPluginNo == old(dirtyPluginNo)
    {
      var oldWarns, oldErrs := CountTypes(oldValue);
      var newWarns, newErrs := CountTypes(newValue);
      filterTotalMessageNo := filterTotalMessageNo + |newValue| - |oldValue|;
      totalMessageNo := totalMessageNo + |newValue| - |oldValue|;
      totalWarningNo := totalWarningNo + newWarns - oldWarns;
      totalErrorNo := totalErrorNo + newErrs - oldErrs;
    }

    /** The observer's reaction to a changed `isDirty`: one up when it became true, one down otherwise. */
    method ObserveDirty(newValue: bool)
      modifies this`dirtyPluginNo
      ensures dirtyPluginNo == old(dirtyPluginNo) + if newValue then 1 else -1
    {
      if newValue {
        dirtyPluginNo := dirtyPluginNo + 1;
      } else {
        dirtyPluginNo := dirtyPluginNo - 1;
      }
    }

    /** `p.messages = ms`: a new list is always a change, so the observer always runs. */
    method SetMessages(p: Plugin, ms: seq<Message>)
      modifies this, p`messages
      ensures p.messages == ms
      ensures filterTotalMessageNo == old(filterTotalMessageNo) + |ms| - |old(p.messages)|
      ensures totalMessageNo == old(totalMessageNo) + |ms| - |old(p.messages)|
      ensures totalWarningNo == old(totalWarningNo) + CountKind(ms, "warn") - CountKind(old(p.messages), "warn")
      ensures totalErrorNo == old(totalErrorNo) + CountKind(ms, "error") - CountKind(old(p.messages), "error")
      ensures dirtyPluginNo == old(dirtyPluginNo)
    {
      var before := p.messages;
      p.messages := ms;
      ObserveMessages(before, ms);
    }

    /** `p.isDirty = v`: assigning the value the field already holds produces no change record. */
    method SetDirty(p: Plugin, v: bool)
      modifies this`dirtyPluginNo, p`isDirty
      ensures p.isDirty == v
      ensures dirtyPluginNo == old(dirtyPluginNo) + if old(p.isDirty) == v then 0 else if v then 1 else -1
    {
      var changed := p.isDirty != v;
      p.isDirty := v;
      if changed {
        ObserveDirty(v);
      }
    }
  }

  // ---------------------------------------------------------------- counters against the records

  /** The state of every record, in order. */
  function States(ps: seq<Plugin>): (r: seq<PluginState>)
    reads set p | p in ps
    ensures |r| == |ps| && forall i :: 0 <= i < |ps| ==> r[i] == ps[i].State()
  {
    if ps == [] then [] else States(ps[..|ps| - 1]) + [ps[|ps| - 1].State()]
  }

  function TotalMessages(s: seq<PluginState>): nat {
    if s == [] then 0 else TotalMessages(s[..|s| - 1]) + |s[|s| - 1].messages|
  }

  function TotalKind(s: seq<PluginState>, kind: string): nat {
    if s == [] then 0 else TotalKind(s[..|s| - 1], kind) + CountKind(s[|s| - 1].messages, kind)
  }

  function DirtyCount(s: seq<PluginState>): nat {
    if s == [] then 0 else DirtyCount(s[..|s| - 1]) + (if s[|s| - 1].isDirty then 1 else 0)
  }

  /** Replacing one record moves each grand total by that record's change, and the dirty count by at most one. */
  lemma {:induction false} TotalsUpdate(s: seq<PluginState>, i: nat, st: PluginState, kind: string)
    requires i < |s|
    ensures TotalMessages(s[i := st]) == TotalMessages(s) - |s[i].messages| + |st.messages|
    ensures TotalKind(s[i := st], kind) == TotalKind(s, kind) - CountKind(s[i].messages, kind) + CountKind(st.messages, kind)
    ensures DirtyCount(s[i := st]) == DirtyCount(s) + (if s[i].isDirty == st.isDirty then 0 else if st.isDirty then 1 else -1)
  {
    var n := |s|;
    assert s[i := st][..n - 1] == if i == n - 1 then s[..n - 1] else s[..n - 1][i := st];
    if i < n - 1 {
      TotalsUpdate(s[..n - 1], i, st, kind);
    }
  }

  /** Each counter minus the total over the records that it counts. */
  function DriftOf(c: Counters, s: seq<PluginState>): Counters {
    Counters(c.filterTotal - TotalMessages(s), c.total - TotalMessages(s),
      c.warnings - TotalKind(s, "warn"), c.errors - TotalKind(s, "error"), c.dirty - DirtyCount(s))
  }

  /** The counters after the observer has seen one record change from `before` to `after`. */
  function Moved(c: Counters, before: PluginState, after: PluginState): Counters {
    var dm := |after.messages| - |before.messages|;
    Counters(c.filterTotal + dm, c.total + dm,
      c.warnings + CountKind(after.messages, "warn") - CountKind(before.messages, "warn"),
      c.errors + CountKind(after.messages, "error") - CountKind(before.messages, "error"),
      c.dirty + if before.isDirty == after.isDirty then 0 else if after.isDirty then 1 else -1)
  }

  /**
   * The observer keeps the counters in step: when one record's state is replaced and the
   * counters move as the observer moves them, each counter still differs from the total over
   * the records by what it differed before.
   */
  lemma DriftKept(c: Counters, s: seq<PluginState>, i: nat, st: PluginState)
    requires i < |s|
    ensures DriftOf(Moved(c, s[i], st), s[i := st]) == DriftOf(c, s)
  {
    TotalsUpdate(s, i, st, "warn");
    TotalsUpdate(s, i, st, "error");
  }
}
