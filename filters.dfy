/**
 * The GUI's filter pipeline (`filters` in filters.js): message-level and plugin-level
 * predicates, the driver that composes them and counts what it hides, the pass that sets
 * each message's `hidden` flag, and the processing of the engine's conflict response.
 * Checkbox reads become the fields of a `FilterState`; the bare global counters are the
 * fields of a `FilterSession`.
 */
module Filters {
  import opened Wrappers
  import opened Text
  import opened Seqs
  import opened Plugins

  /** The state of the filter checkboxes, the search box, and the translated "Do not clean" phrase. */
  datatype FilterState = FilterState(
    hideMessageless: bool,
    hideInactive: bool,
    hideNotes: bool,
    hideDoNotClean: bool,
    hideAllMessages: bool,
    contentFilter: string,
    doNotClean: string)

  // ---------------------------------------------------------------- message filters

  /** `noteFilter`: notes carry the type `'say'`. */
  predicate NoteFilter(m: Message, fs: FilterState) {
    if fs.hideNotes then m.kind != "say" else true
  }

  /** `doNotCleanFilter`: a case-sensitive search for the phrase in the message text. */
  predicate DoNotCleanFilter(m: Message, fs: FilterState) {
    if fs.hideDoNotClean then IndexOf(m.text, fs.doNotClean) == -1 else true
  }

  /** `allMessageFilter`. */
  predicate AllMessageFilter(fs: FilterState) {
    !fs.hideAllMessages
  }

  /** A message both message filters let through. */
  predicate MessageShown(m: Message, fs: FilterState) {
    NoteFilter(m, fs) && DoNotCleanFilter(m, fs)
  }

  /**
   * With its toggle on, the note filter rejects exactly the `'say'` messages and the
   * do-not-clean filter exactly the messages in which the phrase occurs; with its toggle off,
   * each passes everything. Neither looks at the `hidden` flag.
   */
  lemma MessageFiltersSpec(m: Message, fs: FilterState, b: bool)
    ensures NoteFilter(m, fs) <==> !fs.hideNotes || m.kind != "say"
    ensures DoNotCleanFilter(m, fs) <==> !fs.hideDoNotClean || forall i :: !OccursAt(m.text, fs.doNotClean, i)
    ensures MessageShown(m.(hidden := b), fs) == MessageShown(m, fs)
  {
    IndexOfSpec(m.text, fs.doNotClean);
  }

  // ---------------------------------------------------------------- messagelessFilter

  /** How many of `ms` the message filters reject. */
  function CountFailing(ms: seq<Message>, fs: FilterState): nat {
    if ms == [] then 0
    else CountFailing(ms[..|ms| - 1], fs) + (if MessageShown(ms[|ms| - 1], fs) then 0 else 1)
  }

  /** What `messagelessFilter` adds to the hidden-message counter for one plugin. */
  function HiddenTally(ms: seq<Message>, fs: FilterState): nat {
    if AllMessageFilter(fs) then CountFailing(ms, fs) else |ms|
  }

  /** `hasMessages` at the end of the loop: messages are allowed and one of them passes. */
  predicate HasShownMessage(ms: seq<Message>, fs: FilterState) {
    AllMessageFilter(fs) && exists i :: 0 <= i < |ms| && MessageShown(ms[i], fs)
  }

  /** The verdict of `messagelessFilter`. */
  predicate MessagelessPass(ms: seq<Message>, fs: FilterState) {
    if fs.hideMessageless then HasShownMessage(ms, fs) else true
  }

  /** The failing messages are counted once each: the tally never exceeds the list, and equals it exactly when none passes. */
  lemma {:induction false} CountFailingSpec(ms: seq<Message>, fs: FilterState)
    ensures CountFailing(ms, fs) <= |ms|
    ensures CountFailing(ms, fs) == |ms| <==> forall i :: 0 <= i < |ms| ==> !MessageShown(ms[i], fs)
  {
    if ms != [] {
      var init := ms[..|ms| - 1];
      CountFailingSpec(init, fs);
      assert forall i :: 0 <= i < |init| ==> init[i] == ms[i];
    }
  }

  /**
   * With hide-messageless on, a plugin is rejected exactly when every one of its messages is
   * counted as hidden; so an empty message list is always rejected.
   */
  lemma MessagelessRejectsOnlyFullyHidden(ms: seq<Message>, fs: FilterState)
    requires fs.hideMessageless
    ensures !MessagelessPass(ms, fs) <==> HiddenTally(ms, fs) == |ms|
    ensures ms == [] ==> !MessagelessPass(ms, fs)
  {
    CountFailingSpec(ms, fs);
  }

  // ---------------------------------------------------------------- plugin filters

  /** `inactiveFilter`. */
  predicate InactiveFilter(p: Plugin, fs: FilterState) {
    if fs.hideInactive then p.isActive else true
  }

  /** `conflictsFilter`: exact, case-sensitive membership in a non-empty conflict list. */
  predicate ConflictsFilter(p: Plugin, conflicts: seq<string>) {
    if |conflicts| > 0 then p.name in conflicts else true
  }

  /**
   * `searchFilter`. The CRC and tag strings are read from the record's fields; a raw CRC or
   * tag list left by a conflict merge throws when it is lower-cased. No match falls through to
   * a falsy result. Messages are searched whether hidden or not.
   */
  function SearchFilter(p: Plugin, needle: string): Result<bool>
    reads p
  {
    if |needle| == 0 then Ok(true)
    else if Found(p.name, needle) then Ok(true)
    else if p.crc.CrcNumber? then Err(NotAString)
    else if Found(p.crc.text, needle) || Found(p.version, needle) then Ok(true)
    else if p.tags.TagList? then Err(NotAString)
    else if Found(p.tags.added, needle) || Found(p.tags.removed, needle) then Ok(true)
    else Ok(AnyMessageFound(p.messages, needle, false))
  }

  /**
   * The search matches when the needle occurs in the lower-cased name, CRC, version, tag
   * strings or any message text; it throws only on a raw CRC or tag list it reaches.
   */
  lemma SearchFilterSpec(p: Plugin, needle: string)
    ensures needle == "" ==> SearchFilter(p, needle) == Ok(true)
    ensures Found(p.name, needle) ==> SearchFilter(p, needle) == Ok(true)
    ensures SearchFilter(p, needle).Err? ==>
      SearchFilter(p, needle).error == NotAString && (p.crc.CrcNumber? || p.tags.TagList?)
    ensures p.crc.CrcString? && p.tags.TagStrings? ==> SearchFilter(p, needle).Ok?
    ensures SearchFilter(p, needle).Ok? ==> (SearchFilter(p, needle).value <==>
      needle == ""
      || Found(p.name, needle)
      || (p.crc.CrcString? && Found(p.crc.text, needle))
      || Found(p.version, needle)
      || (p.tags.TagStrings? && (Found(p.tags.added, needle) || Found(p.tags.removed, needle)))
      || exists i :: 0 <= i < |p.messages| && Found(p.messages[i].text, needle))
  {
  }

  /**
   * With nothing hidden on the card, the search filter and the record's own `isVisible` agree
   * whenever neither throws; with converted fields neither throws. They differ in when they
   * throw: `isVisible` tries the version before the CRC.
   */
  lemma SearchAgreesWithVisible(p: Plugin, needle: string)
    requires !p.versionHidden && !p.crcHidden && !p.tagsHidden
    requires forall i :: 0 <= i < |p.messages| ==> !p.messages[i].hidden
    ensures p.crc.CrcString? && p.tags.TagStrings? ==> SearchFilter(p, needle).Ok? && p.IsVisible(needle).Ok?
    ensures SearchFilter(p, needle).Ok? && p.IsVisible(needle).Ok? ==> SearchFilter(p, needle) == p.IsVisible(needle)
  {
    ContainsEmpty(ToLower(p.name));
  }

  /** The four plugin filters in the driver's short-circuit order; `Err` when the search throws. */
  function Passes(p: Plugin, fs: FilterState, conflicts: seq<string>): Result<bool>
    reads p
  {
    if MessagelessPass(p.messages, fs) && InactiveFilter(p, fs) && ConflictsFilter(p, conflicts)
    then SearchFilter(p, ToLower(fs.contentFilter))
    else Ok(false)
  }

  /** The verdict of the four plugin filters on each plugin, in order. */
  function Verdicts(ps: seq<Plugin>, fs: FilterState, conflicts: seq<string>): (vs: seq<Result<bool>>)
    reads set p | p in ps
    ensures |vs| == |ps|
  {
    seq(|ps|, i reads ps => if 0 <= i < |ps| then Passes(ps[i], fs, conflicts) else Ok(false))
  }

  /** Each verdict is that plugin's filter result. */
  lemma VerdictAt(ps: seq<Plugin>, i: nat, fs: FilterState, conflicts: seq<string>)
    requires i < |ps|
    ensures Verdicts(ps, fs, conflicts)[i] == Passes(ps[i], fs, conflicts)
  {
  }

  lemma VerdictsAll(ps: seq<Plugin>, fs: FilterState, conflicts: seq<string>)
    ensures forall i :: 0 <= i < |ps| ==> Verdicts(ps, fs, conflicts)[i] == Passes(ps[i], fs, conflicts)
  {
    forall i | 0 <= i < |ps| ensures Verdicts(ps, fs, conflicts)[i] == Passes(ps[i], fs, conflicts) {
      VerdictAt(ps, i, fs, conflicts);
    }
  }

  /** The plugins whose verdict is `Ok(true)`, in input order. */
  function Select<T>(ps: seq<T>, vs: seq<Result<bool>>): seq<T>
    requires |vs| == |ps|
  {
    if ps == [] then []
    else Select(ps[..|ps| - 1], vs[..|vs| - 1]) + (if vs[|vs| - 1] == Ok(true) then [ps[|ps| - 1]] else [])
  }

  /** No verdict is an exception. */
  predicate AllOk(vs: seq<Result<bool>>) {
    forall i :: 0 <= i < |vs| ==> vs[i].Ok?
  }

  /** The plugins that pass every filter, in input order. */
  function Selected(ps: seq<Plugin>, fs: FilterState, conflicts: seq<string>): seq<Plugin>
    reads set p | p in ps
  {
    Select(ps, Verdicts(ps, fs, conflicts))
  }

  /** The hidden-message tally of each plugin, in order. */
  function Tallies(ps: seq<Plugin>, fs: FilterState): (ts: seq<nat>)
    reads set p | p in ps
    ensures |ts| == |ps|
  {
    if ps == [] then [] else Tallies(ps[..|ps| - 1], fs) + [HiddenTally(ps[|ps| - 1].messages, fs)]
  }

  /** Each tally is that plugin's hidden-message count. */
  lemma {:induction false} TallyAt(ps: seq<Plugin>, i: nat, fs: FilterState)
    requires i < |ps|
    ensures Tallies(ps, fs)[i] == HiddenTally(ps[i].messages, fs)
  {
    if i < |ps| - 1 {
      TallyAt(ps[..|ps| - 1], i, fs);
    }
  }

  function Sum(ts: seq<nat>): nat {
    if ts == [] then 0 else Sum(ts[..|ts| - 1]) + ts[|ts| - 1]
  }

  /** The hidden-message tally summed over all of `ps`. */
  function TotalTally(ps: seq<Plugin>, fs: FilterState): nat
    reads set p | p in ps
  {
    Sum(Tallies(ps, fs))
  }

  /** No plugin of `ps` makes the filters throw. */
  predicate NoneThrows(ps: seq<Plugin>, fs: FilterState, conflicts: seq<string>)
    reads set p | p in ps
  {
    forall i :: 0 <= i < |ps| ==> Passes(ps[i], fs, conflicts).Ok?
  }

  /** `t` is the first plugin whose filters throw. */
  predicate ThrowsAt(ps: seq<Plugin>, t: int, fs: FilterState, conflicts: seq<string>)
    reads set p | p in ps
  {
    0 <= t < |ps| && Passes(ps[t], fs, conflicts).Err?
    && forall i :: 0 <= i < t ==> Passes(ps[i], fs, conflicts).Ok?
  }

  /** The position of the first exception among the verdicts, or their number when none throws. */
  function FirstErr(vs: seq<Result<bool>>): (t: nat)
    ensures t <= |vs| && (t < |vs| ==> vs[t].Err?)
  {
    if vs == [] then 0 else if vs[0].Err? then 0 else 1 + FirstErr(vs[1..])
  }

  /** `FirstErr` passes only results. */
  lemma {:induction false} FirstErrSpec(vs: seq<Result<bool>>)
    ensures forall i :: 0 <= i < FirstErr(vs) ==> vs[i].Ok?
  {
    if vs != [] && vs[0].Ok? {
      FirstErrSpec(vs[1..]);
      forall i | 1 <= i < FirstErr(vs) ensures vs[i].Ok? {
        assert vs[i] == vs[1..][i - 1];
      }
    }
  }

  /** An exception with only results before it is the first one. */
  lemma {:induction false} FirstErrAt(vs: seq<Result<bool>>, i: nat)
    requires i < |vs| && vs[i].Err? && forall k :: 0 <= k < i ==> vs[k].Ok?
    ensures FirstErr(vs) == i
  {
    if i > 0 {
      assert vs[0].Ok?;
      assert forall k :: 0 <= k < i - 1 ==> vs[1..][k] == vs[k + 1];
      FirstErrAt(vs[1..], i - 1);
    }
  }

  /** The first plugin whose filters throw, or `|ps|` when none does. */
  function FirstThrower(ps: seq<Plugin>, fs: FilterState, conflicts: seq<string>): nat
    reads set p | p in ps
  {
    FirstErr(Verdicts(ps, fs, conflicts))
  }

  /**
   * `FirstThrower` is `|ps|` exactly when nothing throws, and otherwise the one plugin that
   * throws with none throwing before it.
   */
  lemma FirstThrowerSpec(ps: seq<Plugin>, fs: FilterState, conflicts: seq<string>)
    ensures NoneThrows(ps, fs, conflicts) <==> FirstThrower(ps, fs, conflicts) == |ps|
    ensures FirstThrower(ps, fs, conflicts) < |ps| ==> ThrowsAt(ps, FirstThrower(ps, fs, conflicts), fs, conflicts)
    ensures forall t :: ThrowsAt(ps, t, fs, conflicts) ==> t == FirstThrower(ps, fs, conflicts)
  {
    var vs := Verdicts(ps, fs, conflicts);
    VerdictsAll(ps, fs, conflicts);
    FirstErrSpec(vs);
    forall t | ThrowsAt(ps, t, fs, conflicts) ensures t == FirstThrower(ps, fs, conflicts) {
      FirstErrAt(vs, t);
    }
    if !NoneThrows(ps, fs, conflicts) {
      var j :| 0 <= j < |ps| && Passes(ps[j], fs, conflicts).Err?;
      assert vs[j].Err?;
    }
  }

  /** The verdicts on a prefix are the prefix of the verdicts. */
  lemma {:induction false} VerdictsPrefix(ps: seq<Plugin>, n: nat, fs: FilterState, conflicts: seq<string>)
    requires n <= |ps|
    ensures Verdicts(ps[..n], fs, conflicts) == Verdicts(ps, fs, conflicts)[..n]
  {
    var a, b := Verdicts(ps[..n], fs, conflicts), Verdicts(ps, fs, conflicts)[..n];
    forall i | 0 <= i < n ensures a[i] == b[i] {
      VerdictAt(ps[..n], i, fs, conflicts);
      VerdictAt(ps, i, fs, conflicts);
    }
    AgreeEverywhere(a, b);
  }

  /** The selection keeps an order-preserving sub-list, holding exactly the elements whose verdict is `Ok(true)`. */
  lemma SelectSpec<T>(ps: seq<T>, vs: seq<Result<bool>>)
    requires |vs| == |ps|
    ensures IsSubsequence(Select(ps, vs), ps) && |Select(ps, vs)| <= |ps|
    ensures forall p :: p in Select(ps, vs) ==> exists i :: 0 <= i < |ps| && ps[i] == p && vs[i] == Ok(true)
    ensures forall i :: 0 <= i < |ps| && vs[i] == Ok(true) ==> ps[i] in Select(ps, vs)
  {
    SelectOrder(ps, vs);
    SelectMembers(ps, vs);
  }

  lemma {:induction false} SelectOrder<T>(ps: seq<T>, vs: seq<Result<bool>>)
    requires |vs| == |ps|
    ensures IsSubsequence(Select(ps, vs), ps) && |Select(ps, vs)| <= |ps|
  {
    if ps != [] {
      var n := |ps| - 1;
      var init, vinit := ps[..n], vs[..n];
      SelectOrder(init, vinit);
      var s := Select(init, vinit);
      assert ps == init + [ps[n]];
      if vs[n] == Ok(true) {
        assert Select(ps, vs) == s + [ps[n]];
        SubsequenceBoth(s, init, ps[n]);
      } else {
        assert Select(ps, vs) == s;
        SubsequenceSnoc(s, init, ps[n]);
      }
    }
  }

  lemma {:induction false} SelectMembers<T>(ps: seq<T>, vs: seq<Result<bool>>)
    requires |vs| == |ps|
    ensures forall p :: p in Select(ps, vs) ==> exists i :: 0 <= i < |ps| && ps[i] == p && vs[i] == Ok(true)
    ensures forall i :: 0 <= i < |ps| && vs[i] == Ok(true) ==> ps[i] in Select(ps, vs)
  {
    if ps != [] {
      var n := |ps| - 1;
      SelectMembers(ps[..n], vs[..n]);
      forall p | p in Select(ps, vs) ensures exists i :: 0 <= i < |ps| && ps[i] == p && vs[i] == Ok(true) {
        if p in Select(ps[..n], vs[..n]) {
          var i :| 0 <= i < n && ps[..n][i] == p && vs[..n][i] == Ok(true);
          assert ps[i] == p && vs[i] == Ok(true);
        } else {
          assert ps[n] == p && vs[n] == Ok(true);
        }
      }
      forall i | 0 <= i < |ps| && vs[i] == Ok(true) ensures ps[i] in Select(ps, vs) {
        if i < n {
          assert ps[..n][i] == ps[i] && vs[..n][i] == Ok(true);
        }
      }
    }
  }

  /** The filtered list is an order-preserving sub-list holding exactly the plugins that pass. */
  lemma SelectedSpec(ps: seq<Plugin>, fs: FilterState, conflicts: seq<string>)
    ensures IsSubsequence(Selected(ps, fs, conflicts), ps)
    ensures forall p :: p in Selected(ps, fs, conflicts) <==> p in ps && Passes(p, fs, conflicts) == Ok(true)
    ensures |Selected(ps, fs, conflicts)| <= |ps|
  {
    SelectSpec(ps, Verdicts(ps, fs, conflicts));
    VerdictsAll(ps, fs, conflicts);
  }

  /** One more verdict: the selection grows by that plugin when it passes. */
  lemma SelectStep(ps: seq<Plugin>, vs: seq<Result<bool>>, i: nat)
    requires |vs| == |ps| && i < |ps|
    ensures Select(ps[..i + 1], vs[..i + 1]) == Select(ps[..i], vs[..i]) + (if vs[i] == Ok(true) then [ps[i]] else [])
    ensures AllOk(vs[..i + 1]) <==> AllOk(vs[..i]) && vs[i].Ok?
  {
    PrefixStep(ps, i);
    PrefixStep(vs, i);
  }

  /** One more plugin: the sum grows by that plugin's tally. */
  lemma SumStep(ts: seq<nat>, i: nat)
    requires i < |ts|
    ensures Sum(ts[..i + 1]) == Sum(ts[..i]) + ts[i]
  {
    PrefixStep(ts, i);
  }

  /** The tallies of a prefix are the prefix of the tallies. */
  lemma TalliesPrefix(ps: seq<Plugin>, n: nat, fs: FilterState)
    requires n <= |ps|
    ensures Tallies(ps[..n], fs) == Tallies(ps, fs)[..n]
  {
    var a, b := Tallies(ps[..n], fs), Tallies(ps, fs)[..n];
    forall i | 0 <= i < n ensures a[i] == b[i] {
      TallyAt(ps[..n], i, fs);
      TallyAt(ps, i, fs);
    }
    AgreeEverywhere(a, b);
  }

  /**
   * Leaving the driver loop at the first exception: the counters accumulated so far are those
   * of the plugins before it (selection) and up to it (message tally).
   */
  lemma FirstThrow(ps: seq<Plugin>, vs: seq<Result<bool>>, ts: seq<nat>, i: nat, fs: FilterState, conflicts: seq<string>,
                   e: TypeError, sel: seq<Plugin>, hidden: int, tally: int)
    requires vs == Verdicts(ps, fs, conflicts) && ts == Tallies(ps, fs)
    requires i < |ps| && vs[i] == Err(e) && AllOk(vs[..i])
    requires sel == Select(ps[..i], vs[..i]) && hidden == i - |sel| && tally == Sum(ts[..i + 1])
    ensures PassResult(ps, fs, conflicts) == (Err(e), hidden, tally)
  {
    ThrowFacts(ps, vs, ts, i, fs, conflicts);
    ErrResult(ps, i, fs, conflicts, e, hidden, tally);
  }

  lemma ThrowFacts(ps: seq<Plugin>, vs: seq<Result<bool>>, ts: seq<nat>, i: nat, fs: FilterState, conflicts: seq<string>)
    requires vs == Verdicts(ps, fs, conflicts) && ts == Tallies(ps, fs)
    requires i < |ps| && vs[i].Err? && AllOk(vs[..i])
    ensures FirstThrower(ps, fs, conflicts) == i && Passes(ps[i], fs, conflicts) == vs[i]
    ensures Selected(ps[..i], fs, conflicts) == Select(ps[..i], vs[..i]) && TotalTally(ps[..i + 1], fs) == Sum(ts[..i + 1])
  {
    VerdictsPrefix(ps, i, fs, conflicts);
    TalliesPrefix(ps, i + 1, fs);
    VerdictAt(ps, i, fs, conflicts);
    assert forall k :: 0 <= k < i ==> vs[..i][k] == vs[k];
    FirstErrAt(vs, i);
  }

  lemma ErrResult(ps: seq<Plugin>, i: nat, fs: FilterState, conflicts: seq<string>, e: TypeError, hidden: int, tally: int)
    requires FirstThrower(ps, fs, conflicts) == i < |ps| && Passes(ps[i], fs, conflicts) == Err(e)
    requires hidden == i - |Selected(ps[..i], fs, conflicts)| && tally == TotalTally(ps[..i + 1], fs)
    ensures PassResult(ps, fs, conflicts) == (Err(e), hidden, tally)
  {
  }

  /** Leaving the driver loop after the last plugin: the counters cover the whole list. */
  lemma LastPlugin(ps: seq<Plugin>, vs: seq<Result<bool>>, ts: seq<nat>, fs: FilterState, conflicts: seq<string>,
                   sel: seq<Plugin>, tally: int)
    requires vs == Verdicts(ps, fs, conflicts) && ts == Tallies(ps, fs)
    requires AllOk(vs[..|ps|]) && sel == Select(ps[..|ps|], vs[..|ps|]) && tally == Sum(ts[..|ps|])
    ensures PassResult(ps, fs, conflicts) == (Ok(sel), |ps| - |sel|, tally)
  {
    WholePrefix(ps, |ps|);
    WholePrefix(vs, |vs|);
    WholePrefix(ts, |ts|);
    VerdictsAll(ps, fs, conflicts);
    FirstThrowerSpec(ps, fs, conflicts);
  }

  /** Hiding all messages makes the tally the total number of messages; otherwise it is at most that. */
  lemma {:induction false} TotalTallyBound(ps: seq<Plugin>, fs: FilterState)
    ensures TotalTally(ps, fs) <= TotalMessages(States(ps))
    ensures !AllMessageFilter(fs) ==> TotalTally(ps, fs) == TotalMessages(States(ps))
  {
    if ps != [] {
      var init := ps[..|ps| - 1];
      TotalTallyBound(init, fs);
      CountFailingSpec(ps[|ps| - 1].messages, fs);
      assert States(ps)[..|ps| - 1] == States(init);
    }
  }

  /** An empty search box, or records whose CRC and tags are still the converted strings, never make the driver throw. */
  lemma NeverThrows(ps: seq<Plugin>, fs: FilterState, conflicts: seq<string>)
    requires fs.contentFilter == "" || forall i :: 0 <= i < |ps| ==> ps[i].crc.CrcString? && ps[i].tags.TagStrings?
    ensures forall i :: 0 <= i < |ps| ==> Passes(ps[i], fs, conflicts).Ok?
  {
    assert ToLower("") == "";
  }

  // ---------------------------------------------------------------- the driver

  /**
   * `messagelessFilter`: adds the plugin's hidden messages to the global counter (threaded
   * through as `hidden`), then gives the verdict.
   */
  method MessagelessFilter(p: Plugin, fs: FilterState, hidden: int) returns (pass: bool, hidden': int)
    ensures hidden' == hidden + HiddenTally(p.messages, fs)
    ensures pass == MessagelessPass(p.messages, fs)
  {
    hidden' := hidden;
    var hasMessages := false;
    if AllMessageFilter(fs) {
      var ms := p.messages;
      for i := 0 to |ms|
        invariant hidden' == hidden + CountFailing(ms[..i], fs)
        invariant hasMessages <==> exists k :: 0 <= k < i && MessageShown(ms[k], fs)
      {
        assert ms[..i + 1][..i] == ms[..i];
        if NoteFilter(ms[i], fs) && DoNotCleanFilter(ms[i], fs) {
          hasMessages := true;
          continue;
        }
        hidden' := hidden' + 1;
      }
      assert ms[..|ms|] == ms;
    } else {
      hidden' := hidden' + |p.messages|;
    }
    if fs.hideMessageless {
      pass := hasMessages;
    } else {
      pass := true;
    }
  }

  /**
   * One pass of the driver's loop body, on the `i`-th plugin: the messageless filter (which
   * tallies), then the inactive, conflicts and search filters, short-circuiting on the first
   * rejection.
   */
  method FilterOne(plugins: seq<Plugin>, i: nat, fs: FilterState, conflicts: seq<string>, search: string, hidden: int)
    returns (keep: Result<bool>, hidden': int)
    requires i < |plugins| && search == ToLower(fs.contentFilter)
    ensures hidden' == hidden + Tallies(plugins, fs)[i]
    ensures keep == Verdicts(plugins, fs, conflicts)[i]
  {
    var p := plugins[i];
    VerdictAt(plugins, i, fs, conflicts);
    TallyAt(plugins, i, fs);
    var pass;
    pass, hidden' := MessagelessFilter(p, fs, hidden);
    pass := pass && InactiveFilter(p, fs) && ConflictsFilter(p, conflicts);
    if pass {
      keep := SearchFilter(p, search);
    } else {
      keep := Ok(false);
    }
  }

  /**
   * What a pass over `plugins` ends with: the filtered list and the two counters, or the first
   * exception and the counters as that plugin left them.
   */
  function PassResult(plugins: seq<Plugin>, fs: FilterState, conflicts: seq<string>): (Result<seq<Plugin>>, int, int)
    reads set p | p in plugins
  {
    var t := FirstThrower(plugins, fs, conflicts);
    if t < |plugins| then
      (Err(Passes(plugins[t], fs, conflicts).error), t - |Selected(plugins[..t], fs, conflicts)|,
       TotalTally(plugins[..t + 1], fs))
    else
      (Ok(Selected(plugins, fs, conflicts)), |plugins| - |Selected(plugins, fs, conflicts)|, TotalTally(plugins, fs))
  }

  /**
   * The pass succeeds exactly when no plugin's filters throw; then the list holds exactly the
   * plugins that pass, in order, `hiddenPluginNo` counts the rest and `hiddenMessageNo` sums
   * every plugin's tally. Otherwise the exception is the first plugin's to throw, and the
   * counters cover the plugins before it and, for messages, that plugin too.
   */
  lemma PassResultSpec(plugins: seq<Plugin>, fs: FilterState, conflicts: seq<string>)
    ensures PassResult(plugins, fs, conflicts).0.Ok? <==> NoneThrows(plugins, fs, conflicts)
    ensures var (r, pluginNo, messageNo) := PassResult(plugins, fs, conflicts);
      r.Ok? ==> (IsSubsequence(r.value, plugins)
        && (forall p :: p in r.value <==> p in plugins && Passes(p, fs, conflicts) == Ok(true))
        && pluginNo + |r.value| == |plugins| && 0 <= pluginNo
        && messageNo == TotalTally(plugins, fs))
    ensures var (r, pluginNo, messageNo) := PassResult(plugins, fs, conflicts);
      r.Err? ==> exists t :: (ThrowsAt(plugins, t, fs, conflicts)
        && r.error == Passes(plugins[t], fs, conflicts).error
        && pluginNo == t - |Selected(plugins[..t], fs, conflicts)|
        && messageNo == TotalTally(plugins[..t + 1], fs))
  {
    FirstThrowerSpec(plugins, fs, conflicts);
    SelectedSpec(plugins, fs, conflicts);
  }

  /**
   * A successful pass keeps exactly the plugins that get through each of the four filters:
   * one message shown (under hide-messageless), active (under hide-inactive), named in a
   * non-empty conflict list, and matched by the lower-cased search term.
   */
  lemma PassedPluginsPassEachFilter(plugins: seq<Plugin>, fs: FilterState, conflicts: seq<string>)
    ensures var r := PassResult(plugins, fs, conflicts).0;
      r.Ok? ==> forall p: Plugin :: p in r.value ==> (p in plugins
        && (fs.hideMessageless ==> HasShownMessage(p.messages, fs))
        && (fs.hideInactive ==> p.isActive)
        && (|conflicts| > 0 ==> p.name in conflicts)
        && SearchFilter(p, ToLower(fs.contentFilter)) == Ok(true))
    ensures var r := PassResult(plugins, fs, conflicts).0;
      r.Ok? ==> forall p: Plugin :: (p in plugins
        && (fs.hideMessageless ==> HasShownMessage(p.messages, fs))
        && (fs.hideInactive ==> p.isActive)
        && (|conflicts| > 0 ==> p.name in conflicts)
        && SearchFilter(p, ToLower(fs.contentFilter)) == Ok(true)) ==> p in r.value
  {
    var r := PassResult(plugins, fs, conflicts).0;
    if r.Ok? {
      var sel := Selected(plugins, fs, conflicts);
      assert r.value == sel;
      SelectedSpec(plugins, fs, conflicts);
      SubsequenceMembers(sel, plugins);
      forall p: Plugin
        ensures p in sel <==> (p in plugins
          && (fs.hideMessageless ==> HasShownMessage(p.messages, fs))
          && (fs.hideInactive ==> p.isActive)
          && (|conflicts| > 0 ==> p.name in conflicts)
          && SearchFilter(p, ToLower(fs.contentFilter)) == Ok(true))
      {
        assert p in sel <==> p in plugins && Passes(p, fs, conflicts) == Ok(true);
      }
    }
  }

  /**
   * With a plugin designated for the conflicts filter, a plugin of that name always passes the
   * conflicts filter, and every plugin a successful pass keeps is named in the conflict list,
   * that is, it is the designated one or a key the response marks as conflicting (`ConflictNamesSpec`).
   */
  lemma InspectedPluginKept(plugins: seq<Plugin>, fs: FilterState, filterPlugin: Option<string>, response: Option<Response>)
    requires Designated(filterPlugin)
    ensures forall p: Plugin :: p.name == filterPlugin.value ==> ConflictsFilter(p, ConflictNames(filterPlugin, response))
    ensures var r := PassResult(plugins, fs, ConflictNames(filterPlugin, response)).0;
      r.Ok? ==> forall p: Plugin :: p in r.value ==> p.name in ConflictNames(filterPlugin, response)
  {
    var conflicts := ConflictNames(filterPlugin, response);
    assert conflicts[0] == filterPlugin.value;
    PassedPluginsPassEachFilter(plugins, fs, conflicts);
  }

  /**
   * The loop of `applyPluginFilters`, with the two global counters it resets as out-parameters.
   * The messageless filter runs for every plugin, so the message tally covers rejected plugins
   * too. If a search throws, the counters hold what the plugins up to and including the
   * throwing one added.
   */
  method PluginFilterPass(plugins: seq<Plugin>, fs: FilterState, conflicts: seq<string>)
    returns (r: Result<seq<Plugin>>, pluginNo: int, messageNo: int)
    ensures (r, pluginNo, messageNo) == PassResult(plugins, fs, conflicts)
  {
    var search := ToLower(fs.contentFilter);
    pluginNo, messageNo := 0, 0;
    ghost var vs, ts := Verdicts(plugins, fs, conflicts), Tallies(plugins, fs);
    var filtered: seq<Plugin> := [];
    for i := 0 to |plugins|
      invariant filtered == Select(plugins[..i], vs[..i])
      invariant pluginNo == i - |filtered|
      invariant messageNo == Sum(ts[..i])
      invariant AllOk(vs[..i])
    {
      SelectStep(plugins, vs, i);
      SumStep(ts, i);
      var keep;
      keep, messageNo := FilterOne(plugins, i, fs, conflicts, search, messageNo);
      if keep.Err? {
        FirstThrow(plugins, vs, ts, i, fs, conflicts, keep.error, filtered, pluginNo, messageNo);
        return Err(keep.error), pluginNo, messageNo;
      }
      if keep.value {
        filtered := filtered + [plugins[i]];
        continue;
      }
      pluginNo := pluginNo + 1;
    }
    LastPlugin(plugins, vs, ts, fs, conflicts, filtered, messageNo);
    assert pluginNo == |plugins| - |filtered|;
    return Ok(filtered), pluginNo, messageNo;
  }

  /** The module-level counters `hiddenPluginNo` and `hiddenMessageNo`, and the current conflict list. */
  class FilterSession {
    var hiddenPluginNo: int
    var hiddenMessageNo: int
    var conflicts: seq<string>

    /**
     * `applyPluginFilters`: the two counters end as the pass over the plugins leaves them. Only
     * the counters change, so the verdicts are those of the plugins as they were on entry.
     */
    method ApplyPluginFilters(plugins: seq<Plugin>, fs: FilterState) returns (r: Result<seq<Plugin>>)
      modifies this`hiddenPluginNo, this`hiddenMessageNo
      ensures (r, hiddenPluginNo, hiddenMessageNo) == old(PassResult(plugins, fs, conflicts))
    {
      r, hiddenPluginNo, hiddenMessageNo := PluginFilterPass(plugins, fs, conflicts);
    }
  }

  /**
   * Applying the plugin filters twice in a row gives the same list (or exception) both times and
   * leaves the counters where the first application put them: the pass reads neither counter.
   */
  method FilterTwice(session: FilterSession, plugins: seq<Plugin>, fs: FilterState)
    returns (first: Result<seq<Plugin>>, second: Result<seq<Plugin>>)
    modifies session`hiddenPluginNo, session`hiddenMessageNo
    ensures first == second
    ensures (second, session.hiddenPluginNo, session.hiddenMessageNo) == old(PassResult(plugins, fs, session.conflicts))
  {
    first := session.ApplyPluginFilters(plugins, fs);
    second := session.ApplyPluginFilters(plugins, fs);
  }

  // ---------------------------------------------------------------- applyMessageFilters

  /** Every message with its `hidden` flag set to "some message filter rejects it". */
  function MarkHidden(ms: seq<Message>, fs: FilterState): seq<Message> {
    seq(|ms|, i requires 0 <= i < |ms| => ms[i].(hidden := !MessageShown(ms[i], fs)))
  }

  /** `applyMessageFilters`: rewrites only the `hidden` flags, and only while messages are allowed at all. */
  method ApplyMessageFilters(p: Plugin, fs: FilterState)
    modifies p`messages
    ensures AllMessageFilter(fs) ==> p.messages == MarkHidden(old(p.messages), fs)
    ensures !AllMessageFilter(fs) ==> p.messages == old(p.messages)
  {
    if AllMessageFilter(fs) {
      var i := 0;
      while i < |p.messages|
        invariant 0 <= i <= |p.messages| == |old(p.messages)|
        invariant forall k :: 0 <= k < i ==> p.messages[k] == MarkHidden(old(p.messages), fs)[k]
        invariant forall k :: i <= k < |p.messages| ==> p.messages[k] == old(p.messages)[k]
      {
        var m := p.messages[i];
        p.messages := p.messages[i := m.(hidden := !(NoteFilter(m, fs) && DoNotCleanFilter(m, fs)))];
        i := i + 1;
      }
    }
  }

  /** How many messages carry the `hidden` flag. */
  function CountHidden(ms: seq<Message>): nat {
    if ms == [] then 0 else CountHidden(ms[..|ms| - 1]) + (if ms[|ms| - 1].hidden then 1 else 0)
  }

  /**
   * Marking keeps each message's type and text, so the dashboard's counts stay right without a
   * change record; marking twice is marking once; and the flags set agree with the tally
   * `messagelessFilter` counts for the same plugin.
   */
  lemma {:induction false} MarkHiddenSpec(ms: seq<Message>, fs: FilterState, kind: string)
    ensures |MarkHidden(ms, fs)| == |ms|
    ensures forall i :: 0 <= i < |ms| ==> MarkHidden(ms, fs)[i].kind == ms[i].kind && MarkHidden(ms, fs)[i].text == ms[i].text
    ensures CountKind(MarkHidden(ms, fs), kind) == CountKind(ms, kind)
    ensures MarkHidden(MarkHidden(ms, fs), fs) == MarkHidden(ms, fs)
    ensures AllMessageFilter(fs) ==> CountHidden(MarkHidden(ms, fs)) == HiddenTally(ms, fs)
  {
    if ms != [] {
      var init := ms[..|ms| - 1];
      MarkHiddenSpec(init, fs, kind);
      var marked := MarkHidden(ms, fs);
      assert marked[..|ms| - 1] == MarkHidden(init, fs);
    }
  }

  // ---------------------------------------------------------------- conflict response

  /** One entry of the engine's response: the plugin's fields as the engine sends them. */
  datatype ConflictEntry = ConflictEntry(
    crc: nat,
    isEmpty: bool,
    messages: seq<Message>,
    tags: seq<RawTag>,
    isDirty: bool,
    conflicts: bool)

  /** The parsed response: plugin names with their entries, in key order. */
  type Response = seq<(string, ConflictEntry)>

  /** The `data-conflicts` attribute names a plugin. */
  predicate Designated(filterPlugin: Option<string>) {
    filterPlugin.Some? && filterPlugin.value != ""
  }

  /** The response's keys, in order. */
  function Keys(resp: Response): (ks: seq<string>)
    ensures |ks| == |resp| && forall j :: 0 <= j < |resp| ==> ks[j] == resp[j].0
  {
    if resp == [] then [] else Keys(resp[..|resp| - 1]) + [resp[|resp| - 1].0]
  }

  /** The response keys whose entry says it conflicts, in key order. */
  function ConflictingKeys(resp: Response): seq<string> {
    if resp == [] then []
    else
      var last := resp[|resp| - 1];
      ConflictingKeys(resp[..|resp| - 1]) + (if last.1.conflicts then [last.0] else [])
  }

  /** The list `getConflictingPluginsFromFilter` resolves to. */
  function ConflictNames(filterPlugin: Option<string>, response: Option<Response>): seq<string> {
    if !Designated(filterPlugin) then []
    else if response.None? then [filterPlugin.value]
    else [filterPlugin.value] + ConflictingKeys(response.value)
  }

  /** The conflicting keys are an order-preserving sub-list of the keys, holding exactly the keys of conflicting entries. */
  lemma {:induction false} ConflictingKeysSpec(resp: Response)
    ensures IsSubsequence(ConflictingKeys(resp), Keys(resp))
    ensures forall k :: k in ConflictingKeys(resp) <==> exists j :: 0 <= j < |resp| && resp[j].0 == k && resp[j].1.conflicts
  {
    if resp != [] {
      var init, last := resp[..|resp| - 1], resp[|resp| - 1];
      ConflictingKeysSpec(init);
      assert Keys(resp) == Keys(init) + [last.0];
      assert forall j :: 0 <= j < |init| ==> init[j] == resp[j];
      if last.1.conflicts {
        assert Keys(resp)[..|Keys(resp)| - 1] == Keys(init);
        assert ConflictingKeys(resp)[..|ConflictingKeys(resp)| - 1] == ConflictingKeys(init);
      } else {
        assert ConflictingKeys(resp) == ConflictingKeys(init);
        SubsequenceSnoc(ConflictingKeys(init), Keys(init), last.0);
      }
    }
  }

  /**
   * No designated plugin gives `[]`; no response gives just the designated plugin; otherwise
   * the designated plugin comes first, followed by the conflicting keys, each once when the
   * keys are distinct, as those of a parsed JSON object are.
   */
  lemma ConflictNamesSpec(filterPlugin: Option<string>, response: Option<Response>)
    ensures !Designated(filterPlugin) <==> ConflictNames(filterPlugin, response) == []
    ensures Designated(filterPlugin) && response.None? ==> ConflictNames(filterPlugin, response) == [filterPlugin.value]
    ensures Designated(filterPlugin) && response.Some? ==>
      var names := ConflictNames(filterPlugin, response);
      names[0] == filterPlugin.value && IsSubsequence(names[1..], Keys(response.value))
      && forall k :: k in names[1..] <==> exists j :: 0 <= j < |response.value| && response.value[j].0 == k && response.value[j].1.conflicts
    ensures Designated(filterPlugin) && response.Some? && Distinct(Keys(response.value)) ==>
      Distinct(ConflictNames(filterPlugin, response)[1..])
  {
    if Designated(filterPlugin) && response.Some? {
      ConflictingKeysSpec(response.value);
      assert ConflictNames(filterPlugin, response)[1..] == ConflictingKeys(response.value);
      if Distinct(Keys(response.value)) {
        SubsequenceDistinct(ConflictingKeys(response.value), Keys(response.value));
      }
    }
  }

  /** The designated plugin appears twice when the response reports it as conflicting too. */
  lemma ConflictNamesRepeat(e: ConflictEntry)
    requires e.conflicts
    ensures ConflictNames(Some("A.esp"), Some([("A.esp", e)])) == ["A.esp", "A.esp"]
  {
    var resp: Response := [("A.esp", e)];
    assert resp[..0] == [];
    assert ConflictingKeys(resp) == ["A.esp"];
    assert ConflictNames(Some("A.esp"), Some(resp)) == ["A.esp"] + ["A.esp"];
  }

  /**
   * The entry the merge leaves in a record named `name`: the last one under that key, and
   * so, the keys of a parsed object being distinct, the one under that key (`EntryForKey`).
   */
  function EntryFor(resp: Response, name: string): Option<ConflictEntry> {
    if resp == [] then None
    else if resp[|resp| - 1].0 == name then Some(resp[|resp| - 1].1)
    else EntryFor(resp[..|resp| - 1], name)
  }

  /** With distinct keys, a record named like a key ends with that key's entry, and one named like no key with none. */
  lemma {:induction false} EntryForKey(resp: Response, name: string)
    requires Distinct(Keys(resp))
    ensures forall j :: 0 <= j < |resp| && resp[j].0 == name ==> EntryFor(resp, name) == Some(resp[j].1)
    ensures (forall j :: 0 <= j < |resp| ==> resp[j].0 != name) ==> EntryFor(resp, name).None?
  {
    if resp != [] {
      var init := resp[..|resp| - 1];
      assert Keys(init) == Keys(resp)[..|resp| - 1];
      EntryForKey(init, name);
      assert forall j :: 0 <= j < |init| ==> init[j] == resp[j];
      if resp[|resp| - 1].0 == name {
        assert forall j :: 0 <= j < |resp| - 1 ==> Keys(resp)[j] != Keys(resp)[|resp| - 1];
      }
    }
  }

  /** No earlier record has the same name, so the merge's search stops at `i`. */
  predicate IsFirstNamed(ps: seq<Plugin>, i: int) {
    0 <= i < |ps| && forall j :: 0 <= j < i ==> ps[j].name != ps[i].name
  }

  /**
   * The engine's messages as the merge stores them: a raw message object has no `hidden`
   * property, so each reads as not hidden.
   */
  function Unhidden(ms: seq<Message>): (r: seq<Message>)
    ensures |r| == |ms|
  {
    seq(|ms|, i requires 0 <= i < |ms| => ms[i].(hidden := false))
  }

  /**
   * The stored messages are the entry's, each with its type and text and none hidden, so the
   * observer counts the same messages of each type as the entry holds.
   */
  lemma {:induction false} UnhiddenKeeps(ms: seq<Message>, kind: string)
    ensures |Unhidden(ms)| == |ms|
    ensures forall i :: 0 <= i < |ms| ==>
      !Unhidden(ms)[i].hidden && Unhidden(ms)[i].kind == ms[i].kind && Unhidden(ms)[i].text == ms[i].text
    ensures CountKind(Unhidden(ms), kind) == CountKind(ms, kind)
    ensures CountHidden(Unhidden(ms)) == 0
  {
    if ms != [] {
      UnhiddenKeeps(ms[..|ms| - 1], kind);
      assert Unhidden(ms)[..|ms| - 1] == Unhidden(ms[..|ms| - 1]);
    }
  }

  /** The fields the merge overwrites: raw CRC and tags, and the entry's messages, emptiness and dirtiness. */
  function Merged(st: PluginState, e: ConflictEntry): PluginState {
    st.(crc := CrcNumber(e.crc), isEmpty := e.isEmpty, messages := Unhidden(e.messages), tags := TagList(e.tags), isDirty := e.isDirty)
  }

  function AfterMerge(st: PluginState, name: string, first: bool, resp: Response): PluginState {
    var e := EntryFor(resp, name);
    if first && e.Some? then Merged(st, e.value) else st
  }

  /** Every record's state after `entry` was copied into the first record named `key`. */
  function MergeStep(s: seq<PluginState>, ps: seq<Plugin>, key: string, entry: ConflictEntry): seq<PluginState>
    requires |s| == |ps|
  {
    seq(|s|, j requires 0 <= j < |s| => if ps[j].name == key && IsFirstNamed(ps, j) then Merged(s[j], entry) else s[j])
  }

  /** The first three assignments of the merge for one record: CRC, emptiness, then the observed messages. */
  method CopyMessages(dash: Dashboard, p: Plugin, entry: ConflictEntry)
    modifies dash, p`crc, p`isEmpty, p`messages
    ensures p.State() == old(p.State()).(crc := CrcNumber(entry.crc), isEmpty := entry.isEmpty, messages := Unhidden(entry.messages))
    ensures dash.Counts() == Moved(old(dash.Counts()), old(p.State()), p.State())
  {
    p.crc := CrcNumber(entry.crc);
    p.isEmpty := entry.isEmpty;
    dash.SetMessages(p, Unhidden(entry.messages));
  }

  /** The last two assignments of the merge for one record: the raw tags, then the observed dirtiness. */
  method CopyDirty(dash: Dashboard, p: Plugin, entry: ConflictEntry)
    modifies dash, p`tags, p`isDirty
    ensures p.State() == old(p.State()).(tags := TagList(entry.tags), isDirty := entry.isDirty)
    ensures dash.Counts() == Moved(old(dash.Counts()), old(p.State()), p.State())
  {
    p.tags := TagList(entry.tags);
    dash.SetDirty(p, entry.isDirty);
  }

  /** The inner loop of the merge: copy `entry` into the first record named `key`, if any. */
  method MergeEntry(dash: Dashboard, plugins: seq<Plugin>, key: string, entry: ConflictEntry)
    requires Distinct(plugins)
    modifies dash, plugins`isEmpty, plugins`isDirty, plugins`crc, plugins`messages, plugins`tags
    ensures States(plugins) == MergeStep(old(States(plugins)), plugins, key, entry)
    ensures DriftOf(dash.Counts(), States(plugins)) == old(DriftOf(dash.Counts(), States(plugins)))
  {
    // The search for the first record named `key`; the loop of the source stops there with `break`.
    var i := 0;
    while i < |plugins| && plugins[i].name != key
      invariant 0 <= i <= |plugins|
      invariant forall j :: 0 <= j < i ==> plugins[j].name != key
    {
      i := i + 1;
    }
    if i < |plugins| {
      var p := plugins[i];
      ghost var s0, c0 := States(plugins), dash.Counts();
      ghost var st := Merged(s0[i], entry);
      CopyMessages(dash, p, entry);
      ghost var c1, mid := dash.Counts(), p.State();
      CopyDirty(dash, p, entry);
      forall j | 0 <= j < |plugins| && j != i
        ensures plugins[j].State() == s0[j]
      {
        assert plugins[j] != p;
      }
      assert p.State() == st;
      UpdatedAt(States(plugins), s0, i, st);
      MergeAtFirst(plugins, s0, i, key, entry);
      DriftKept(c0, s0, i, mid);
      DriftKept(c1, s0[i := mid], i, st);
      UpdateTwice(s0, i, mid, st);
    } else {
      MergeMissing(States(plugins), plugins, key, entry);
    }
  }

  /** Merging into the first record named `key` is merging into every record that is the first with its name `key`. */
  lemma MergeAtFirst(ps: seq<Plugin>, s0: seq<PluginState>, i: nat, key: string, entry: ConflictEntry)
    requires |s0| == |ps| && i < |ps| && ps[i].name == key
    requires forall j :: 0 <= j < i ==> ps[j].name != key
    ensures s0[i := Merged(s0[i], entry)] == MergeStep(s0, ps, key, entry)
  {
    assert IsFirstNamed(ps, i);
    forall j | 0 <= j < |ps| && j != i && ps[j].name == key
      ensures !IsFirstNamed(ps, j)
    {
      assert j > i && ps[i].name == ps[j].name;
    }
    UpdatedAt(MergeStep(s0, ps, key, entry), s0, i, Merged(s0[i], entry));
  }

  /** With no record named `key`, the merge of that entry changes nothing. */
  lemma MergeMissing(s0: seq<PluginState>, ps: seq<Plugin>, key: string, entry: ConflictEntry)
    requires |s0| == |ps|
    requires forall j :: 0 <= j < |ps| ==> ps[j].name != key
    ensures MergeStep(s0, ps, key, entry) == s0
  {
  }

  /** Each entry overwrites everything an earlier entry under the same key wrote. */
  lemma AfterMergeStep(st: PluginState, name: string, first: bool, resp: Response, k: nat)
    requires k < |resp|
    ensures AfterMerge(st, name, first, resp[..k + 1]) ==
      (if resp[k].0 == name && first then Merged(AfterMerge(st, name, first, resp[..k]), resp[k].1)
       else AfterMerge(st, name, first, resp[..k]))
  {
    PrefixStep(resp, k);
  }

  /** One more entry of the response appends its key to the list exactly when it conflicts. */
  lemma ConflictsGrow(first: string, resp: Response, k: nat, conflicts: seq<string>)
    requires k < |resp| && conflicts == [first] + ConflictingKeys(resp[..k])
    ensures (if resp[k].1.conflicts then conflicts + [resp[k].0] else conflicts) == [first] + ConflictingKeys(resp[..k + 1])
  {
    PrefixStep(resp, k);
    AppendAssoc([first], ConflictingKeys(resp[..k]), if resp[k].1.conflicts then [resp[k].0] else []);
  }

  /** One more merged entry takes every record one entry further through the response. */
  lemma MergeAfter(s0: seq<PluginState>, cur: seq<PluginState>, ps: seq<Plugin>, resp: Response, k: nat)
    requires |s0| == |cur| == |ps| && k < |resp|
    requires forall i :: 0 <= i < |ps| ==> cur[i] == AfterMerge(s0[i], ps[i].name, IsFirstNamed(ps, i), resp[..k])
    ensures forall i :: 0 <= i < |ps| ==> (MergeStep(cur, ps, resp[k].0, resp[k].1)[i]
      == AfterMerge(s0[i], ps[i].name, IsFirstNamed(ps, i), resp[..k + 1]))
  {
    forall i | 0 <= i < |ps|
      ensures MergeStep(cur, ps, resp[k].0, resp[k].1)[i] == AfterMerge(s0[i], ps[i].name, IsFirstNamed(ps, i), resp[..k + 1])
    {
      AfterMergeStep(s0[i], ps[i].name, IsFirstNamed(ps, i), resp, k);
    }
  }

  /**
   * The response processing of `getConflictingPluginsFromFilter`: builds the conflict list and
   * copies each entry into the first record with the same name, without running the converters.
   */
  method GetConflictingPlugins(dash: Dashboard, plugins: seq<Plugin>, filterPlugin: Option<string>, response: Option<Response>)
    returns (conflicts: seq<string>)
    requires Distinct(plugins)
    requires response.Some? ==> Distinct(Keys(response.value))
    modifies dash, plugins`isEmpty, plugins`isDirty, plugins`crc, plugins`messages, plugins`tags
    ensures conflicts == ConflictNames(filterPlugin, response)
    ensures forall i :: 0 <= i < |plugins| ==> (States(plugins)[i] ==
      if Designated(filterPlugin) && response.Some?
      then AfterMerge(old(States(plugins))[i], plugins[i].name, IsFirstNamed(plugins, i), response.value)
      else old(States(plugins))[i])
    ensures DriftOf(dash.Counts(), States(plugins)) == old(DriftOf(dash.Counts(), States(plugins)))
  {
    if !Designated(filterPlugin) {
      return [];
    }
    if response.None? {
      return [filterPlugin.value];
    }
    var resp := response.value;
    ghost var s0, d0 := States(plugins), DriftOf(dash.Counts(), States(plugins));
    ghost var cur, cs := s0, dash.Counts();
    conflicts := [filterPlugin.value];
    for k := 0 to |resp|
      invariant conflicts == [filterPlugin.value] + ConflictingKeys(resp[..k])
      invariant States(plugins) == cur && dash.Counts() == cs && DriftOf(cs, cur) == d0
      invariant |cur| == |plugins|
      invariant forall i :: 0 <= i < |plugins| ==>
        cur[i] == AfterMerge(s0[i], plugins[i].name, IsFirstNamed(plugins, i), resp[..k])
    {
      var (key, entry) := resp[k];
      ConflictsGrow(filterPlugin.value, resp, k, conflicts);
      if entry.conflicts {
        conflicts := conflicts + [key];
      }
      MergeEntry(dash, plugins, key, entry);
      MergeAfter(s0, cur, plugins, resp, k);
      cur, cs := States(plugins), dash.Counts();
    }
    WholePrefix(resp, |resp|);
  }
}
