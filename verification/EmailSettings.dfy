/** The e-mail notification settings: one set of defaults, and overrides for single actions. */
module EmailSettings {

  const OFF := 0
  const ON := 1
  const ANYBODY := 0
  const NOBODY := 100
  const MIN := "threshold_min"
  const MAX := "threshold_max"

  type Values = map<string, int>

  datatype Config = Config(defaults: Values, overrides: map<string, Values>)

  /** The value for an action: its override, else the default, else off. */
  function NotifyFlag(c: Config, action: string, flag: string): int {
    if action in c.overrides && flag in c.overrides[action] then c.overrides[action][flag]
    else if flag in c.defaults then c.defaults[flag]
    else OFF
  }

  // ----- the submitted form -----

  datatype Submission = Submission(flags: seq<(string, string)>, thresholds: seq<(string, int)>)

  function Switch(s: Submission, action: string, flag: string): int {
    if (action, flag) in s.flags then ON else OFF
  }

  /** The interval of access levels chosen for an action; nobody if none was chosen. */
  ghost predicate IsLowest(ts: seq<(string, int)>, action: string, low: int) {
    && (low == NOBODY || (action, low) in ts) && low <= NOBODY
    && forall t :: (action, t) in ts ==> low <= t
  }

  ghost predicate IsHighest(ts: seq<(string, int)>, action: string, high: int) {
    && (high == ANYBODY || (action, high) in ts) && high >= ANYBODY
    && forall t :: (action, t) in ts ==> t <= high
  }

  ghost predicate Thresholds(ts: seq<(string, int)>, actions: seq<string>, mins: Values, maxs: Values) {
    && (forall a :: a in mins <==> a in actions)
    && (forall a :: a in maxs <==> a in actions)
    && (forall a :: a in actions ==> IsLowest(ts, a, mins[a]) && IsHighest(ts, a, maxs[a]))
  }

  lemma {:induction false} LowestUnique(ts: seq<(string, int)>, action: string, a: int, b: int)
    requires IsLowest(ts, action, a) && IsLowest(ts, action, b)
    ensures a == b
  {
  }

  lemma {:induction false} HighestUnique(ts: seq<(string, int)>, action: string, a: int, b: int)
    requires IsHighest(ts, action, a) && IsHighest(ts, action, b)
    ensures a == b
  {
  }

  /** The thresholds are determined by what has been submitted. */
  lemma {:induction false} ThresholdsUnique(ts: seq<(string, int)>, actions: seq<string>, mins: Values, maxs: Values,
      mins': Values, maxs': Values)
    requires Thresholds(ts, actions, mins, maxs) && Thresholds(ts, actions, mins', maxs')
    ensures mins == mins' && maxs == maxs'
  {
    hide IsLowest, IsHighest;
    forall a | a in actions
      ensures mins[a] == mins'[a] && maxs[a] == maxs'[a]
    {
      LowestUnique(ts, a, mins[a], mins'[a]);
      HighestUnique(ts, a, maxs[a], maxs'[a]);
    }
  }

  lemma {:induction false} OneMoreThreshold(ts: seq<(string, int)>, action: string, threshold: int, a: string, low: int,
      high: int)
    requires IsLowest(ts, a, low) && IsHighest(ts, a, high)
    ensures IsLowest(ts + [(action, threshold)], a, if a == action && threshold < low then threshold else low)
    ensures IsHighest(ts + [(action, threshold)], a, if a == action && threshold > high then threshold else high)
  {
    var more := ts + [(action, threshold)];
    assert more[|ts|] == (action, threshold);
    forall t
      ensures (a, t) in more <==> (a, t) in ts || (a == action && t == threshold)
    {
    }
  }

  /** If all levels submitted for an action are between 0 and 100, these are the lowest and the highest of
      them; without any, no level is between them. */
  ghost predicate ShowsLevels(ts: seq<(string, int)>, action: string, low: int, high: int) {
    && (SomeLevel(ts, action) && (forall t :: (action, t) in ts ==> 0 <= t <= 100) ==>
      (action, low) in ts && (action, high) in ts && forall t :: (action, t) in ts ==> low <= t <= high)
    && (!SomeLevel(ts, action) ==> low == 100 && high == 0)
  }

  ghost predicate SomeLevel(ts: seq<(string, int)>, action: string) {
    exists t :: (action, t) in ts
  }

  lemma {:induction false} LevelsShown(ts: seq<(string, int)>, action: string, low: int, high: int)
    requires IsLowest(ts, action, low) && IsHighest(ts, action, high)
    ensures ShowsLevels(ts, action, low, high)
  {
    if t :| (action, t) in ts {
      assert low <= t <= high;
    }
  }

  method ParseThresholds(actions: seq<string>, thresholds: seq<(string, int)>) returns (mins: Values, maxs: Values)
    ensures Thresholds(thresholds, actions, mins, maxs)
    ensures forall a :: a in actions ==> ShowsLevels(thresholds, a, mins[a], maxs[a])
  {
    hide IsLowest, IsHighest;
    mins, maxs := map a | a in actions :: NOBODY, map a | a in actions :: ANYBODY;
    NoThresholds(actions);
    var i := 0;
    while i < |thresholds|
      invariant i <= |thresholds| && Thresholds(thresholds[..i], actions, mins, maxs)
    {
      var (action, threshold) := thresholds[i];
      assert thresholds[..i + 1] == thresholds[..i] + [(action, threshold)];
      forall a | a in actions {
        OneMoreThreshold(thresholds[..i], action, threshold, a, mins[a], maxs[a]);
      }
      if action in mins && threshold < mins[action] {
        mins := mins[action := threshold];
      }
      if action in maxs && threshold > maxs[action] {
        maxs := maxs[action := threshold];
      }
      i := i + 1;
    }
    assert thresholds[..i] == thresholds;
    forall a | a in actions {
      LevelsShown(thresholds, a, mins[a], maxs[a]);
    }
  }

  lemma {:induction false} NoThresholds(actions: seq<string>)
    ensures Thresholds([], actions, map a | a in actions :: NOBODY, map a | a in actions :: ANYBODY)
  {
  }

  // ----- the defaults -----

  ghost predicate CommonFlag(s: Submission, actions: seq<string>, flag: string) {
    forall a :: a in actions ==> (a, flag) in s.flags
  }

  predicate Within(t: int, low: int, high: int) {
    low <= t <= high
  }

  ghost predicate WithinAll(t: int, actions: seq<string>, mins: Values, maxs: Values)
    requires forall a :: a in actions ==> a in mins && a in maxs
  {
    forall a :: a in actions ==> Within(t, mins[a], maxs[a])
  }

  method CommonFlags(s: Submission, actions: seq<string>, flags: seq<string>) returns (defaults: Values)
    ensures forall f :: f in defaults <==> f in flags && CommonFlag(s, actions, f)
    ensures forall f :: f in defaults ==> defaults[f] == ON
  {
    defaults := map[];
    var i := 0;
    while i < |flags|
      invariant i <= |flags|
      invariant forall f :: f in defaults <==> f in flags[..i] && CommonFlag(s, actions, f)
      invariant forall f :: f in defaults ==> defaults[f] == ON
    {
      var flag := flags[i];
      assert flags[..i + 1] == flags[..i] + [flag];
      ghost var before := defaults;
      defaults := defaults[flag := ON];
      var j := 0;
      while j < |actions|
        invariant j <= |actions|
        invariant defaults == if CommonFlag(s, actions[..j], flag) then before[flag := ON] else before - {flag}
      {
        assert actions[..j + 1] == actions[..j] + [actions[j]];
        if (actions[j], flag) !in s.flags {
          defaults := defaults - {flag};
        }
        j := j + 1;
      }
      assert actions[..j] == actions;
      i := i + 1;
    }
    assert flags[..i] == flags;
  }

  /** The largest of the values for the actions, but at least `least`. */
  ghost predicate IsLargest(x: int, least: int, actions: seq<string>, values: Values)
    requires forall a :: a in actions ==> a in values
  {
    && x >= least && (forall a :: a in actions ==> values[a] <= x)
    && (x == least || exists a :: a in actions && values[a] == x)
  }

  /** The smallest of the values for the actions, but at most `most`. */
  ghost predicate IsSmallest(x: int, most: int, actions: seq<string>, values: Values)
    requires forall a :: a in actions ==> a in values
  {
    && x <= most && (forall a :: a in actions ==> x <= values[a])
    && (x == most || exists a :: a in actions && values[a] == x)
  }

  lemma {:induction false} OneMoreValue(x: int, least: int, most: int, actions: seq<string>, a: string, values: Values)
    requires a in values && forall b :: b in actions ==> b in values
    ensures IsLargest(x, least, actions, values) ==>
      IsLargest(if x < values[a] then values[a] else x, least, actions + [a], values)
    ensures IsSmallest(x, most, actions, values) ==>
      IsSmallest(if x > values[a] then values[a] else x, most, actions + [a], values)
  {
    assert (actions + [a])[|actions|] == a;
    assert forall b :: b in actions + [a] <==> b in actions || b == a;
  }

  /** The intersection of all intervals: from the largest minimum to the smallest maximum. */
  method CommonThresholds(actions: seq<string>, mins: Values, maxs: Values) returns (low: int, high: int)
    requires forall a :: a in actions ==> a in mins && a in maxs
    ensures IsLargest(low, ANYBODY, actions, mins) && IsSmallest(high, NOBODY, actions, maxs)
    ensures forall t :: Within(t, low, high) <==> Within(t, ANYBODY, NOBODY) && WithinAll(t, actions, mins, maxs)
  {
    low, high := ANYBODY, NOBODY;
    var i := 0;
    while i < |actions|
      invariant i <= |actions|
      invariant IsLargest(low, ANYBODY, actions[..i], mins) && IsSmallest(high, NOBODY, actions[..i], maxs)
    {
      assert actions[..i + 1] == actions[..i] + [actions[i]];
      OneMoreValue(low, ANYBODY, NOBODY, actions[..i], actions[i], mins);
      OneMoreValue(high, ANYBODY, NOBODY, actions[..i], actions[i], maxs);
      if high > maxs[actions[i]] {
        high := maxs[actions[i]];
      }
      if low < mins[actions[i]] {
        low := mins[actions[i]];
      }
      i := i + 1;
    }
    assert actions[..i] == actions;
    Intersection(low, high, actions, mins, maxs);
  }

  lemma {:induction false} Intersection(low: int, high: int, actions: seq<string>, mins: Values, maxs: Values)
    requires forall a :: a in actions ==> a in mins && a in maxs
    requires IsLargest(low, ANYBODY, actions, mins) && IsSmallest(high, NOBODY, actions, maxs)
    ensures forall t :: Within(t, low, high) <==> Within(t, ANYBODY, NOBODY) && WithinAll(t, actions, mins, maxs)
  {
    forall t | Within(t, ANYBODY, NOBODY) && WithinAll(t, actions, mins, maxs)
      ensures Within(t, low, high)
    {
      if a :| a in actions && mins[a] == low {
        assert Within(t, mins[a], maxs[a]);
      }
      if a :| a in actions && maxs[a] == high {
        assert Within(t, mins[a], maxs[a]);
      }
    }
  }

  // ----- the overrides -----

  function Default(defaults: Values, flag: string): int {
    if flag in defaults then defaults[flag] else OFF
  }

  /** The overrides of one action hold exactly the values that differ from the defaults.  Flags are
      compared by whether they are set at all, whatever number the default is. */
  ghost predicate Differences(s: Submission, action: string, flags: seq<string>, min: int, max: int, defaults: Values,
      own: Values)
  {
    && (forall f :: f in own ==> f in flags || f == MIN || f == MAX)
    && (forall f :: f in flags ==>
      && (f in own <==> ((action, f) in s.flags) != (Default(defaults, f) != OFF))
      && (f in own ==> own[f] == Switch(s, action, f)))
    && (MIN in own <==> min != Default(defaults, MIN)) && (MIN in own ==> own[MIN] == min)
    && (MAX in own <==> max != Default(defaults, MAX)) && (MAX in own ==> own[MAX] == max)
  }

  method OverridesOf(s: Submission, action: string, flags: seq<string>, min: int, max: int, defaults: Values)
    returns (own: Values)
    requires MIN !in flags && MAX !in flags
    ensures Differences(s, action, flags, min, max, defaults, own)
  {
    own := map[];
    var i := 0;
    while i < |flags|
      invariant i <= |flags|
      invariant forall f :: f in own ==> f in flags[..i]
      invariant forall f :: f in flags[..i] ==>
        && (f in own <==> ((action, f) in s.flags) != (Default(defaults, f) != OFF))
        && (f in own ==> own[f] == Switch(s, action, f))
    {
      var flag := flags[i];
      assert flags[..i + 1] == flags[..i] + [flag];
      if ((action, flag) in s.flags) != (Default(defaults, flag) != OFF) {
        own := own[flag := Switch(s, action, flag)];
      }
      i := i + 1;
    }
    assert flags[..i] == flags;
    if Default(defaults, MIN) != min {
      own := own[MIN := min];
    }
    if Default(defaults, MAX) != max {
      own := own[MAX := max];
    }
  }

  /** Nothing is stored for actions without overrides, or for unknown actions. */
  ghost predicate AllDifferences(s: Submission, actions: seq<string>, flags: seq<string>, mins: Values, maxs: Values,
      defaults: Values, overrides: map<string, Values>)
    requires forall a :: a in actions ==> a in mins && a in maxs
  {
    && (forall a :: a in overrides ==> a in actions && overrides[a] != map[])
    && forall a :: a in actions ==>
      Differences(s, a, flags, mins[a], maxs[a], defaults, if a in overrides then overrides[a] else map[])
  }

  method AllOverrides(s: Submission, actions: seq<string>, flags: seq<string>, mins: Values, maxs: Values,
      defaults: Values)
    returns (overrides: map<string, Values>)
    requires MIN !in flags && MAX !in flags && forall a :: a in actions ==> a in mins && a in maxs
    ensures AllDifferences(s, actions, flags, mins, maxs, defaults, overrides)
  {
    hide Differences;
    overrides := map[];
    var i := 0;
    while i < |actions|
      invariant i <= |actions| && AllDifferences(s, actions[..i], flags, mins, maxs, defaults, overrides)
    {
      var action := actions[i];
      assert actions[..i + 1] == actions[..i] + [action];
      var own := OverridesOf(s, action, flags, mins[action], maxs[action], defaults);
      SameDifferences(s, action, flags, mins[action], maxs[action], defaults, own,
          if action in overrides then overrides[action] else map[]);
      if own != map[] {
        overrides := overrides[action := own];
      }
      i := i + 1;
    }
    assert actions[..i] == actions;
  }

  lemma {:induction false} SameDifferences(s: Submission, action: string, flags: seq<string>, min: int, max: int,
      defaults: Values, a: Values, b: Values)
    requires Differences(s, action, flags, min, max, defaults, a)
    ensures Differences(s, action, flags, min, max, defaults, b) ==> a == b
  {
    if Differences(s, action, flags, min, max, defaults, b) {
      assert forall f :: f in a <==> f in b;
    }
  }

  // ----- saving and reading back -----

  /** The default for the flag is a number other than on or off. */
  predicate Odd(defaults: Values, flag: string) {
    flag in defaults && defaults[flag] != ON && defaults[flag] != OFF
  }

  /** Reading the settings yields what was submitted: the thresholds, and every flag as on or off,
      unless it is switched on where an odd default says so already. */
  ghost predicate ReadsBack(c: Config, s: Submission, actions: seq<string>, flags: seq<string>) {
    forall a :: a in actions ==>
      && (forall f :: f in flags ==>
        NotifyFlag(c, a, f) == if (a, f) in s.flags && Odd(c.defaults, f) then c.defaults[f] else Switch(s, a, f))
      && IsLowest(s.thresholds, a, NotifyFlag(c, a, MIN)) && IsHighest(s.thresholds, a, NotifyFlag(c, a, MAX))
  }

  /** What an administrator sees: submitted flags are on, all others off, and every action is limited to the
      levels from the lowest to the highest submitted one.  An action without submitted levels is limited
      to nobody. */
  ghost predicate ShowsSubmission(c: Config, s: Submission, actions: seq<string>, flags: seq<string>) {
    forall a :: a in actions ==>
      && (forall f :: f in flags && (f in c.defaults ==> c.defaults[f] == 0 || c.defaults[f] == 1) ==>
        NotifyFlag(c, a, f) == if (a, f) in s.flags then 1 else 0)
      && ShowsLevels(s.thresholds, a, NotifyFlag(c, a, "threshold_min"), NotifyFlag(c, a, "threshold_max"))
  }

  lemma {:induction false} SubmissionShown(c: Config, s: Submission, actions: seq<string>, flags: seq<string>)
    requires ReadsBack(c, s, actions, flags)
    ensures ShowsSubmission(c, s, actions, flags)
  {
    hide IsLowest, IsHighest, ShowsLevels, NotifyFlag;
    forall a | a in actions
      ensures ShowsLevels(s.thresholds, a, NotifyFlag(c, a, "threshold_min"), NotifyFlag(c, a, "threshold_max"))
    {
      LevelsShown(s.thresholds, a, NotifyFlag(c, a, MIN), NotifyFlag(c, a, MAX));
    }
  }

  /** No override repeats a default. */
  ghost predicate Compact(c: Config) {
    forall a :: a in c.overrides ==> c.overrides[a] != map[] && forall f :: f in c.overrides[a] ==>
      c.overrides[a][f] != Default(c.defaults, f)
  }

  /** The access level is in the intervals of all actions. */
  ghost predicate NotifiedByAll(c: Config, actions: seq<string>, t: int) {
    forall a :: a in actions ==> Within(t, NotifyFlag(c, a, MIN), NotifyFlag(c, a, MAX))
  }

  /** The default levels are the largest of the minimums and the smallest of the maximums. */
  ghost predicate DefaultsMeet(c: Config, actions: seq<string>) {
    && "threshold_min" in c.defaults && "threshold_max" in c.defaults
    && (forall a :: a in actions ==> NotifyFlag(c, a, "threshold_min") <= c.defaults["threshold_min"])
    && (forall a :: a in actions ==> NotifyFlag(c, a, "threshold_max") >= c.defaults["threshold_max"])
    && 0 <= c.defaults["threshold_min"] && c.defaults["threshold_max"] <= 100
    && (c.defaults["threshold_min"] == 0 ||
      exists a :: a in actions && NotifyFlag(c, a, "threshold_min") == c.defaults["threshold_min"])
    && (c.defaults["threshold_max"] == 100 ||
      exists a :: a in actions && NotifyFlag(c, a, "threshold_max") == c.defaults["threshold_max"])
  }

  /** Saves a submitted form; the defaults are recomputed only by users who may change them. */
  method Save(s: Submission, actions: seq<string>, flags: seq<string>, mayChangeDefaults: bool, existing: Values)
    returns (c: Config)
    requires MIN !in flags && MAX !in flags
    ensures ShowsSubmission(c, s, actions, flags)
    ensures ReadsBack(c, s, actions, flags) && Compact(c)
    ensures mayChangeDefaults ==> forall f :: f in flags ==> !Odd(c.defaults, f)
    ensures !mayChangeDefaults ==> c.defaults == existing
    ensures mayChangeDefaults ==> forall f :: f in c.defaults <==>
      f == MIN || f == MAX || (f in flags && CommonFlag(s, actions, f))
    ensures mayChangeDefaults ==> forall t :: Within(t, c.defaults[MIN], c.defaults[MAX]) <==>
      Within(t, ANYBODY, NOBODY) && NotifiedByAll(c, actions, t)
    ensures mayChangeDefaults ==> forall f :: f in flags && CommonFlag(s, actions, f) ==> c.defaults[f] == 1
    ensures mayChangeDefaults ==> DefaultsMeet(c, actions)
    ensures forall a :: a in c.overrides ==> a in actions
    // Recomputing the defaults forgets every other flag, such as the one for explicitly named users.
    ensures forall a, f :: f !in flags && f != MIN && f != MAX ==>
      NotifyFlag(c, a, f) == if mayChangeDefaults then OFF else Default(existing, f)
  {
    var mins, maxs := ParseThresholds(actions, s.thresholds);
    var defaults := existing;
    if mayChangeDefaults {
      defaults := CommonFlags(s, actions, flags);
      var low, high := CommonThresholds(actions, mins, maxs);
      defaults := defaults[MIN := low][MAX := high];
    }
    var overrides := AllOverrides(s, actions, flags, mins, maxs, defaults);
    c := Config(defaults, overrides);
    SavedReadsBack(c, s, actions, flags, mins, maxs);
    SubmissionShown(c, s, actions, flags);
    forall t
      ensures NotifiedByAll(c, actions, t) <==> WithinAll(t, actions, mins, maxs)
    {
    }
    forall a, f | f !in flags && f != MIN && f != MAX
      ensures NotifyFlag(c, a, f) == Default(c.defaults, f)
    {
      OtherFlagsDefault(c, s, actions, flags, mins, maxs, a, f);
    }
  }

  lemma {:induction false} SavedReadsBack(c: Config, s: Submission, actions: seq<string>, flags: seq<string>,
      mins: Values, maxs: Values)
    requires Thresholds(s.thresholds, actions, mins, maxs) && MIN !in flags && MAX !in flags
    requires AllDifferences(s, actions, flags, mins, maxs, c.defaults, c.overrides)
    ensures ReadsBack(c, s, actions, flags) && Compact(c)
    ensures forall a :: a in actions ==> NotifyFlag(c, a, MIN) == mins[a] && NotifyFlag(c, a, MAX) == maxs[a]
  {
    forall a | a in actions
      ensures forall f :: f in flags ==>
        NotifyFlag(c, a, f) == if (a, f) in s.flags && Odd(c.defaults, f) then c.defaults[f] else Switch(s, a, f)
      ensures NotifyFlag(c, a, MIN) == mins[a] && NotifyFlag(c, a, MAX) == maxs[a]
    {
      var own := if a in c.overrides then c.overrides[a] else map[];
      assert Differences(s, a, flags, mins[a], maxs[a], c.defaults, own);
    }
  }

  lemma {:induction false} OtherFlagsDefault(c: Config, s: Submission, actions: seq<string>, flags: seq<string>,
      mins: Values, maxs: Values, action: string, flag: string)
    requires Thresholds(s.thresholds, actions, mins, maxs)
    requires AllDifferences(s, actions, flags, mins, maxs, c.defaults, c.overrides)
    requires flag !in flags && flag != MIN && flag != MAX
    ensures NotifyFlag(c, action, flag) == Default(c.defaults, flag)
  {
    if action in c.overrides {
      assert Differences(s, action, flags, mins[action], maxs[action], c.defaults, c.overrides[action]);
    }
  }

  // ----- what is not read back -----

  const EXPLICIT := "explicit"

  /** The flags of the form. */
  const PAGE_FLAGS := ["reporter", "handler", "monitor", "bugnotes"]

  /** The defaults that are shipped. */
  const SHIPPED_DEFAULTS: Values := map["reporter" := ON, "handler" := ON, "monitor" := ON, "bugnotes" := ON,
    EXPLICIT := ON, MIN := NOBODY, MAX := NOBODY]

  /** The actions of the form: the fixed ones, and one for every status. */
  function PageActions(sponsorship: bool, statuses: seq<string>): seq<string> {
    ["owner", "reopened", "deleted", "bugnote"] + (if sponsorship then ["sponsor"] else []) + ["relation"] + statuses
  }

  lemma {:induction false} PageFlagNames()
    ensures MIN !in PAGE_FLAGS && MAX !in PAGE_FLAGS && EXPLICIT !in PAGE_FLAGS && EXPLICIT != MIN && EXPLICIT != MAX
  {
    assert |MIN| == |MAX| == 13 && |EXPLICIT| == 8;
    assert forall f :: f in PAGE_FLAGS ==> |f| < 13 && f[0] != 'e';
    assert EXPLICIT[0] == 'e';
  }

  lemma {:induction false} ShippedExplicit()
    ensures EXPLICIT in SHIPPED_DEFAULTS && SHIPPED_DEFAULTS[EXPLICIT] == ON
  {
    PageFlagNames();
  }

  /** A flag that is submitted as on, while the existing default for it is 2, is read as 2. */
  method SaveOverOddDefault(s: Submission, sponsorship: bool, statuses: seq<string>, action: string, flag: string)
    returns (c: Config)
    requires action in PageActions(sponsorship, statuses) && flag in PAGE_FLAGS && (action, flag) in s.flags
    ensures NotifyFlag(c, action, flag) == 2 != Switch(s, action, flag)
  {
    hide PageActions, PAGE_FLAGS, SHIPPED_DEFAULTS;
    PageFlagNames();
    c := Save(s, PageActions(sponsorship, statuses), PAGE_FLAGS, false, SHIPPED_DEFAULTS[flag := 2]);
  }

  /** The flag for explicitly named users is on by default; recomputing the defaults turns it off for every
      action, whatever is submitted. */
  method SaveForgetsFlag(s: Submission, sponsorship: bool, statuses: seq<string>, action: string)
    returns (before: Config, c: Config)
    ensures before.defaults == SHIPPED_DEFAULTS
    ensures NotifyFlag(before, action, EXPLICIT) == ON && NotifyFlag(c, action, EXPLICIT) == OFF
  {
    hide PageActions, PAGE_FLAGS, SHIPPED_DEFAULTS;
    PageFlagNames();
    ShippedExplicit();
    before := Config(SHIPPED_DEFAULTS, map[]);
    c := Save(s, PageActions(sponsorship, statuses), PAGE_FLAGS, true, before.defaults);
  }
}
