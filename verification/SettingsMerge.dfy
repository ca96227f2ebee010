/** MergeSettings, one field of each merge kind (internal/config/settings.go). */
module SettingsMerge {
  import opened FirstSeen
  import opened Text
  import opened DeepMerge

  datatype Permissions = Permissions(
    allow: seq<string>, deny: seq<string>, ask: seq<string>, additionalDirectories: seq<string>,
    defaultMode: string, disableBypassMode: Option<string>, disableAutoMode: Option<string>)

  datatype Worktree = Worktree(enabled: Option<bool>, sparsePaths: seq<string>)

  /** A nil map or pointer is None. */
  datatype Settings = Settings(
    model: string,
    cleanupPeriodDays: Option<int>,
    env: Option<map<string, string>>,
    permissions: Option<Permissions>,
    availableModels: seq<string>,
    allowedMCPServers: seq<string>,
    worktree: Option<Worktree>,
    enabledPlugins: Option<map<string, int>>,
    sandbox: Option<map<string, Value>>)

  const ZERO := Settings("", None, None, None, [], [], None, None, None)

  function LastString(a: string, b: string): string {
    if b != "" then b else a
  }

  function LastSome<T>(a: Option<T>, b: Option<T>): Option<T> {
    if b.Some? then b else a
  }

  /** A non-empty string value replaces; nil and "" do not. */
  function LastMode(a: Option<string>, b: Option<string>): Option<string> {
    if b.Some? && b.value != "" then b else a
  }

  function OverrideMap<V>(a: Option<map<string, V>>, b: Option<map<string, V>>): Option<map<string, V>> {
    if b.None? then a else Some((if a.Some? then a.value else map[]) + b.value)
  }

  /** mergeAnyMap: allocates a map even for two nil ones. */
  function AnyMap<V>(a: Option<map<string, V>>, b: Option<map<string, V>>): Option<map<string, V>> {
    Some((if a.Some? then a.value else map[]) + (if b.Some? then b.value else map[]))
  }

  /** The ordered union; a first list is taken over as it is, repeats included. */
  function MergedStrings(a: seq<string>, b: seq<string>): seq<string> {
    if a == [] then b else a + Firsts(b, Elements(a))
  }

  method MergeStrings(a: seq<string>, b: seq<string>) returns (out: seq<string>)
    ensures out == MergedStrings(a, b)
  {
    if |a| == 0 {
      return b;
    }
    out := a;
    var seen := set item | item in out;
    for i := 0 to |b|
      invariant out == a + Firsts(b[..i], Elements(a))
      invariant seen == Elements(a) + Elements(b[..i])
    {
      assert b[..i + 1] == b[..i] + [b[i]];
      FirstsSnoc(b[..i], b[i], Elements(a));
      ElementsSnoc(b[..i], b[i]);
      if b[i] in seen {
        continue;
      }
      out := out + [b[i]];
      seen := seen + {b[i]};
    }
    assert b[..|b|] == b;
  }

  function MergedPermissions(a: Option<Permissions>, b: Option<Permissions>): Option<Permissions> {
    if b.None? then a
    else if a.None? then b
    else
      var x, y := a.value, b.value;
      Some(Permissions(x.allow + y.allow, x.deny + y.deny, x.ask + y.ask,
                       x.additionalDirectories + y.additionalDirectories,
                       LastString(x.defaultMode, y.defaultMode), LastMode(x.disableBypassMode, y.disableBypassMode),
                       LastMode(x.disableAutoMode, y.disableAutoMode)))
  }

  function MergedWorktree(a: Option<Worktree>, b: Option<Worktree>): Option<Worktree> {
    if b.None? then a
    else
      var x := if a.Some? then a.value else Worktree(None, []);
      Some(Worktree(LastSome(x.enabled, b.value.enabled), MergedStrings(x.sparsePaths, b.value.sparsePaths)))
  }

  function SandboxOf(s: Settings): Value {
    Dict(if s.sandbox.Some? then s.sandbox.value else map[])
  }

  /** One round of the loop in MergeSettings. */
  function Merged(a: Settings, b: Settings): Settings {
    Settings(
      LastString(a.model, b.model),
      LastSome(a.cleanupPeriodDays, b.cleanupPeriodDays),
      OverrideMap(a.env, b.env),
      MergedPermissions(a.permissions, b.permissions),
      MergedStrings(a.availableModels, b.availableModels),
      a.allowedMCPServers + b.allowedMCPServers,
      MergedWorktree(a.worktree, b.worktree),
      AnyMap(a.enabledPlugins, b.enabledPlugins),
      Some(Merge(SandboxOf(a), SandboxOf(b)).entries))
  }

  function MergedFrom(a: Settings, list: seq<Settings>): Settings
    decreases |list|
  {
    if list == [] then a else MergedFrom(Merged(a, list[0]), list[1..])
  }

  /** What MergeSettings(list...) returns. */
  function MergedAll(list: seq<Settings>): Settings {
    MergedFrom(ZERO, list)
  }

  /** The loop that copies one map over another. */
  method CopyInto<V>(base: map<string, V>, over: map<string, V>) returns (out: map<string, V>)
    ensures out == base + over
  {
    out := base;
    var left := over.Keys;
    while left != {}
      invariant left <= over.Keys
      invariant out.Keys == base.Keys + (over.Keys - left)
      invariant forall k | k in out :: out[k] == if k in over.Keys - left then over[k] else base[k]
      decreases left
    {
      var k :| k in left;
      out := out[k := over[k]];
      left := left - {k};
    }
  }

  /** mergeAnyMap. */
  method MergeAnyMap<V>(a: Option<map<string, V>>, b: Option<map<string, V>>) returns (out: Option<map<string, V>>)
    ensures out == AnyMap(a, b)
  {
    var merged: map<string, V> := map[];
    if a.Some? {
      merged := CopyInto(merged, a.value);
      assert map[] + a.value == a.value;
    }
    if b.Some? {
      merged := CopyInto(merged, b.value);
    } else {
      assert merged + map[] == merged;
    }
    out := Some(merged);
  }

  /** mergeNestedAnyMap. */
  method MergeNestedAnyMap(x: Value, y: Value) returns (out: map<string, Value>)
    requires x.Dict? && y.Dict?
    ensures Dict(out) == Merge(x, y)
    decreases y
  {
    out := CopyInto(map[], x.entries);
    var left := y.entries.Keys;
    while left != {}
      invariant left <= y.entries.Keys
      invariant out.Keys == x.entries.Keys + (y.entries.Keys - left)
      invariant forall k | k in out ::
        out[k] == if k in left || k !in y.entries then x.entries[k]
                  else if k in x.entries then Merge(x.entries[k], y.entries[k]) else y.entries[k]
      decreases left
    {
      var k :| k in left;
      left := left - {k};
      if k in out && out[k].Dict? && y.entries[k].Dict? {
        var nested := MergeNestedAnyMap(out[k], y.entries[k]);
        out := out[k := Dict(nested)];
      } else {
        out := out[k := y.entries[k]];
      }
    }
  }

  method MergePermissions(a: Option<Permissions>, b: Permissions) returns (out: Permissions)
    ensures Some(out) == MergedPermissions(a, Some(b))
  {
    if a.None? {
      return b;
    }
    out := a.value;
    out := out.(allow := out.allow + b.allow, deny := out.deny + b.deny, ask := out.ask + b.ask,
                additionalDirectories := out.additionalDirectories + b.additionalDirectories);
    if b.defaultMode != "" {
      out := out.(defaultMode := b.defaultMode);
    }
    if b.disableBypassMode.Some? && b.disableBypassMode.value != "" {
      out := out.(disableBypassMode := b.disableBypassMode);
    }
    if b.disableAutoMode.Some? && b.disableAutoMode.value != "" {
      out := out.(disableAutoMode := b.disableAutoMode);
    }
  }

  method MergeWorktree(a: Option<Worktree>, b: Worktree) returns (out: Worktree)
    ensures Some(out) == MergedWorktree(a, Some(b))
  {
    out := if a.None? then Worktree(None, []) else a.value;
    if b.enabled.Some? {
      out := out.(enabled := b.enabled);
    }
    var paths := MergeStrings(out.sparsePaths, b.sparsePaths);
    out := out.(sparsePaths := paths);
  }

  /** One round of the loop, field by field. */
  method MergeSource(base: Settings, s: Settings) returns (out: Settings)
    ensures out == Merged(base, s)
  {
    hide Merge, MergedStrings;
    out := base;
    if s.cleanupPeriodDays.Some? {
      out := out.(cleanupPeriodDays := s.cleanupPeriodDays);
    }
    if s.env.Some? {
      var env := CopyInto(if out.env.None? then map[] else out.env.value, s.env.value);
      out := out.(env := Some(env));
    }
    if s.permissions.Some? {
      var permissions := MergePermissions(out.permissions, s.permissions.value);
      out := out.(permissions := Some(permissions));
    }
    if s.model != "" {
      out := out.(model := s.model);
    }
    var models := MergeStrings(out.availableModels, s.availableModels);
    out := out.(availableModels := models, allowedMCPServers := out.allowedMCPServers + s.allowedMCPServers);
    if s.worktree.Some? {
      var worktree := MergeWorktree(out.worktree, s.worktree.value);
      out := out.(worktree := Some(worktree));
    }
    var plugins := MergeAnyMap(out.enabledPlugins, s.enabledPlugins);
    var sandbox := MergeNestedAnyMap(SandboxOf(out), SandboxOf(s));
    out := out.(enabledPlugins := plugins, sandbox := Some(sandbox));
  }

  method MergeSettings(list: seq<Settings>) returns (out: Settings)
    ensures out == MergedAll(list)
  {
    out := ZERO;
    for i := 0 to |list|
      invariant MergedFrom(out, list[i..]) == MergedAll(list)
    {
      hide Merged;
      assert list[i..][1..] == list[i + 1..];
      out := MergeSource(out, list[i]);
    }
  }

  // ---------- Every kind but the nested map is associative ----------

  lemma LastModeAssociative(a: Option<string>, b: Option<string>, c: Option<string>)
    ensures LastMode(LastMode(a, b), c) == LastMode(a, LastMode(b, c))
  {
  }

  lemma OverrideMapAssociative<V>(a: Option<map<string, V>>, b: Option<map<string, V>>, c: Option<map<string, V>>)
    ensures OverrideMap(OverrideMap(a, b), c) == OverrideMap(a, OverrideMap(b, c))
    ensures AnyMap(AnyMap(a, b), c) == AnyMap(a, AnyMap(b, c))
  {
    var none: map<string, V> := map[];
    var x, y := if a.Some? then a.value else none, if b.Some? then b.value else none;
    var z := if c.Some? then c.value else none;
    assert (x + y) + z == x + (y + z);
    assert none + y == y && none + z == z;
  }

  /** Ordered union is associative even though its first list keeps its repeats. */
  lemma MergedStringsAssociative(a: seq<string>, b: seq<string>, c: seq<string>)
    ensures MergedStrings(MergedStrings(a, b), c) == MergedStrings(a, MergedStrings(b, c))
  {
    if a != [] && b != [] {
      var newB, newC := Firsts(b, Elements(a)), Firsts(c, Elements(b));
      FirstsAppend(b, newC, Elements(a));
      FirstsTwice(c, Elements(b), Elements(a) + Elements(b));
      ElementsAppend(a, newB);
      assert Elements(a + newB) == Elements(a) + Elements(b);
      Regroup(a, newB, Firsts(c, Elements(a + newB)));
      hide Firsts;
    } else if a != [] {
      assert Firsts(b, Elements(a)) == [];
      assert a + [] == a;
    }
  }

  lemma MergedPermissionsAssociative(a: Option<Permissions>, b: Option<Permissions>, c: Option<Permissions>)
    ensures MergedPermissions(MergedPermissions(a, b), c) == MergedPermissions(a, MergedPermissions(b, c))
  {
    if a.Some? && b.Some? && c.Some? {
      var x, y, z := a.value, b.value, c.value;
      Regroup(x.allow, y.allow, z.allow);
      Regroup(x.deny, y.deny, z.deny);
      Regroup(x.ask, y.ask, z.ask);
      Regroup(x.additionalDirectories, y.additionalDirectories, z.additionalDirectories);
      LastModeAssociative(x.disableBypassMode, y.disableBypassMode, z.disableBypassMode);
      LastModeAssociative(x.disableAutoMode, y.disableAutoMode, z.disableAutoMode);
    }
  }

  lemma MergedWorktreeAssociative(a: Option<Worktree>, b: Option<Worktree>, c: Option<Worktree>)
    ensures MergedWorktree(MergedWorktree(a, b), c) == MergedWorktree(a, MergedWorktree(b, c))
  {
    hide MergedStrings;
    var none := Worktree(None, []);
    var x, y := if a.Some? then a.value else none, if b.Some? then b.value else none;
    var z := if c.Some? then c.value else none;
    MergedStringsAssociative(x.sparsePaths, y.sparsePaths, z.sparsePaths);
    MergedStringsUnit(y.sparsePaths);
    MergedStringsUnit(z.sparsePaths);
  }

  lemma MergedStringsUnit(a: seq<string>)
    ensures MergedStrings([], a) == a && MergedStrings(a, []) == a
  {
    assert a + [] == a;
  }

  /** All fields but the nested map. */
  function Flat(s: Settings): Settings {
    s.(sandbox := None)
  }

  lemma FlatAssociative(a: Settings, b: Settings, c: Settings)
    ensures Flat(Merged(Merged(a, b), c)) == Flat(Merged(a, Merged(b, c)))
  {
    OverrideMapAssociative(a.env, b.env, c.env);
    OverrideMapAssociative(a.enabledPlugins, b.enabledPlugins, c.enabledPlugins);
    MergedPermissionsAssociative(a.permissions, b.permissions, c.permissions);
    MergedStringsAssociative(a.availableModels, b.availableModels, c.availableModels);
    Regroup(a.allowedMCPServers, b.allowedMCPServers, c.allowedMCPServers);
    MergedWorktreeAssociative(a.worktree, b.worktree, c.worktree);
    hide OverrideMap, AnyMap, MergedPermissions, MergedStrings, MergedWorktree, Merge;
  }

  lemma FlatCongruent(a: Settings, a': Settings, b: Settings)
    requires Flat(a) == Flat(a')
    ensures Flat(Merged(a, b)) == Flat(Merged(a', b))
  {
    hide OverrideMap, AnyMap, MergedPermissions, MergedStrings, MergedWorktree, Merge;
  }

  /** Starting from nothing changes nothing. */
  lemma FlatUnit(a: Settings, b: Settings)
    ensures Flat(Merged(a, Merged(ZERO, b))) == Flat(Merged(a, b))
    ensures a.enabledPlugins.Some? ==> Flat(Merged(a, ZERO)) == Flat(a)
  {
    MergedStringsUnit(a.availableModels);
    MergedStringsUnit(b.availableModels);
    assert a.allowedMCPServers + [] == a.allowedMCPServers && [] + b.allowedMCPServers == b.allowedMCPServers;
    UnitMaps(a.env, b.env);
    UnitMaps(a.enabledPlugins, b.enabledPlugins);
    UnitWorktree(a.worktree, b.worktree);
    hide OverrideMap, AnyMap, MergedStrings, MergedWorktree, Merge;
  }

  lemma UnitMaps<V>(a: Option<map<string, V>>, b: Option<map<string, V>>)
    ensures OverrideMap(None, b) == b && OverrideMap(a, None) == a
    ensures AnyMap(a, AnyMap(None, b)) == AnyMap(a, b)
    ensures a.Some? ==> AnyMap(a, None) == a
  {
    var none: map<string, V> := map[];
    if a.Some? { assert a.value + none == a.value; }
    if b.Some? { assert none + b.value == b.value; }
    assert none + none == none;
  }

  lemma UnitWorktree(a: Option<Worktree>, b: Option<Worktree>)
    ensures MergedWorktree(None, b) == b && MergedWorktree(a, None) == a
  {
    if b.Some? {
      MergedStringsUnit(b.value.sparsePaths);
    }
  }

  lemma {:induction false} MergedSnoc(a: Settings, list: seq<Settings>, last: Settings)
    ensures MergedFrom(a, list + [last]) == Merged(MergedFrom(a, list), last)
    decreases |list|
  {
    hide Merged;
    if list == [] {
      assert list + [last] == [last];
      assert [last][1..] == [];
    } else {
      assert (list + [last])[1..] == list[1..] + [last];
      MergedSnoc(Merged(a, list[0]), list[1..], last);
    }
  }

  /** But for the nested map, merging with a merged list is merging the list; for the empty list, unless a map
      is missing that the merge allocates. */
  lemma {:induction false} FlatFlattens(a: Settings, list: seq<Settings>)
    ensures Flat(Merged(a, MergedAll(list))) == Flat(MergedFrom(a, list)) <==> list != [] || a.enabledPlugins.Some?
    decreases |list|
  {
    if list == [] {
      EmptyMerge(list);
      FlatUnit(a, ZERO);
    } else {
      hide Merged;
      var front, last := list[..|list| - 1], list[|list| - 1];
      assert list == front + [last];
      MergedSnoc(a, front, last);
      MergedSnoc(ZERO, front, last);
      if front == [] {
        FlatUnit(a, last);
      } else {
        FlatFlattens(a, front);
        FlatAssociative(a, MergedAll(front), last);
        FlatCongruent(Merged(a, MergedAll(front)), MergedFrom(a, front), last);
      }
    }
  }

  // ---------- What the merge of a whole list says ----------

  /** `f` reads a setting that a later source overrides. */
  ghost predicate Overrides<T(!new)>(f: Settings -> Option<T>) {
    f(ZERO) == None && forall a, b :: f(Merged(a, b)) == if f(b).Some? then f(b) else f(a)
  }

  /** The last source that has the setting decides; without one there is none. */
  ghost predicate LastWins<T(!new)>(list: seq<Settings>, f: Settings -> Option<T>) {
    && (forall i | 0 <= i < |list| && f(list[i]).Some? && (forall j | i < j < |list| :: f(list[j]).None?) ::
          f(MergedAll(list)) == f(list[i]))
    && ((forall j | 0 <= j < |list| :: f(list[j]).None?) ==> f(MergedAll(list)).None?)
  }

  lemma {:induction false} OverridesWins<T(!new)>(list: seq<Settings>, f: Settings -> Option<T>)
    requires Overrides(f)
    ensures LastWins(list, f)
    decreases |list|
  {
    if list == [] {
      EmptyMerge(list);
    } else {
      var front, last := list[..|list| - 1], list[|list| - 1];
      assert list == front + [last] && forall j | 0 <= j < |front| :: front[j] == list[j];
      MergedSnoc(ZERO, front, last);
      assert f(MergedAll(list)) == if f(last).Some? then f(last) else f(MergedAll(front));
      OverridesWins(front, f);
      hide MergedAll, Merged, Overrides;
      assert list[|front|] == last;
    }
  }

  function Nonempty(s: string): Option<string> {
    if s == "" then None else Some(s)
  }

  function Mode(s: Option<string>): Option<string> {
    if s.None? then None else Nonempty(s.value)
  }

  function Entry<V>(m: Option<map<string, V>>, k: string): Option<V> {
    if m.Some? && k in m.value then Some(m.value[k]) else None
  }

  /** The rules of a source; none without a permissions block. */
  function Rules(s: Settings): Permissions {
    if s.permissions.Some? then s.permissions.value else Permissions([], [], [], [], "", None, None)
  }

  function Trees(s: Settings): Worktree {
    if s.worktree.Some? then s.worktree.value else Worktree(None, [])
  }

  /** Later sources win, setting by setting and key by key. */
  lemma LastSourceWins(list: seq<Settings>, k: string)
    ensures LastWins(list, (s: Settings) => Nonempty(s.model))
    ensures LastWins(list, (s: Settings) => s.cleanupPeriodDays)
    ensures LastWins(list, (s: Settings) => Entry(s.env, k))
    ensures LastWins(list, (s: Settings) => Entry(s.enabledPlugins, k))
    ensures LastWins(list, (s: Settings) => Nonempty(Rules(s).defaultMode))
    ensures LastWins(list, (s: Settings) => Mode(Rules(s).disableBypassMode))
    ensures LastWins(list, (s: Settings) => Mode(Rules(s).disableAutoMode))
    ensures LastWins(list, (s: Settings) => Trees(s).enabled)
  {
    hide LastWins, Merge, MergedStrings, MergedPermissions;
    LastModeWins(list);
    OverridesWins(list, (s: Settings) => Nonempty(s.model));
    OverridesWins(list, (s: Settings) => s.cleanupPeriodDays);
    OverridesWins(list, (s: Settings) => Entry(s.env, k));
    OverridesWins(list, (s: Settings) => Entry(s.enabledPlugins, k));
    OverridesWins(list, (s: Settings) => Trees(s).enabled);
  }

  lemma LastModeWins(list: seq<Settings>)
    ensures LastWins(list, (s: Settings) => Nonempty(Rules(s).defaultMode))
    ensures LastWins(list, (s: Settings) => Mode(Rules(s).disableBypassMode))
    ensures LastWins(list, (s: Settings) => Mode(Rules(s).disableAutoMode))
  {
    hide LastWins, Merge, MergedStrings, MergedWorktree, OverrideMap, AnyMap;
    OverridesWins(list, (s: Settings) => Nonempty(Rules(s).defaultMode));
    OverridesWins(list, (s: Settings) => Mode(Rules(s).disableBypassMode));
    OverridesWins(list, (s: Settings) => Mode(Rules(s).disableAutoMode));
  }

  lemma EmptyMerge(list: seq<Settings>)
    requires list == []
    ensures MergedAll(list) == ZERO
  {
  }

  /** The lists of all sources one after the other. */
  function Gathered(list: seq<Settings>, f: Settings -> seq<string>): seq<string> {
    if list == [] then [] else Gathered(list[..|list| - 1], f) + f(list[|list| - 1])
  }

  /** `f` reads a list to which a later source appends. */
  ghost predicate Appends(f: Settings -> seq<string>) {
    f(ZERO) == [] && forall a, b :: f(Merged(a, b)) == f(a) + f(b)
  }

  lemma {:induction false} AppendsGather(list: seq<Settings>, f: Settings -> seq<string>)
    requires Appends(f)
    ensures f(MergedAll(list)) == Gathered(list, f)
    decreases |list|
  {
    if list == [] {
      EmptyMerge(list);
    } else {
      var front, last := list[..|list| - 1], list[|list| - 1];
      assert list == front + [last];
      MergedSnoc(ZERO, front, last);
      AppendsGather(front, f);
    }
  }

  /** The first list that is not empty, and behind it what the later ones add, each item where it comes first. */
  ghost predicate Unites(list: seq<Settings>, f: Settings -> seq<string>) {
    && (forall i | 0 <= i < |list| && f(list[i]) != [] && (forall j | 0 <= j < i :: f(list[j]) == []) ::
          f(MergedAll(list)) == f(list[i]) + Firsts(Gathered(list[i + 1..], f), Elements(f(list[i]))))
    && ((forall j | 0 <= j < |list| :: f(list[j]) == []) ==> f(MergedAll(list)) == [])
  }

  /** `f` reads a list to which a later source adds what is new. */
  ghost predicate AddsNew(f: Settings -> seq<string>) {
    f(ZERO) == [] && forall a, b :: f(Merged(a, b)) == MergedStrings(f(a), f(b))
  }

  lemma {:induction false} UnionsUnite(list: seq<Settings>, f: Settings -> seq<string>)
    requires AddsNew(f)
    ensures Unites(list, f)
    decreases |list|
  {
    if list == [] {
      EmptyMerge(list);
    } else {
      var front, last := list[..|list| - 1], list[|list| - 1];
      assert list == front + [last];
      MergedSnoc(ZERO, front, last);
      assert f(MergedAll(list)) == MergedStrings(f(MergedAll(front)), f(last));
      UnionsUnite(front, f);
      hide MergedAll, AddsNew;
      UnitesMore(front, last, f);
    }
  }

  lemma UnitesMore(front: seq<Settings>, last: Settings, f: Settings -> seq<string>)
    requires Unites(front, f) && f(MergedAll(front + [last])) == MergedStrings(f(MergedAll(front)), f(last))
    ensures Unites(front + [last], f)
  {
    hide MergedAll, MergedStrings;
    var list := front + [last];
    assert list[|front|] == last && forall j | 0 <= j < |front| :: front[j] == list[j];
    forall i | 0 <= i < |list| && f(list[i]) != [] && (forall j | 0 <= j < i :: f(list[j]) == [])
      ensures f(MergedAll(list)) == f(list[i]) + Firsts(Gathered(list[i + 1..], f), Elements(f(list[i])))
    {
      hide Gathered, Firsts;
      if i < |front| {
        UniteSnoc(front, last, i, f);
      } else {
        UniteLast(list, f);
      }
    }
    NothingUnites();
  }

  lemma NothingUnites()
    ensures MergedStrings([], []) == [] && forall b: seq<string> :: MergedStrings([], b) == b
  {
  }

  /** Where only the last source lists anything. */
  lemma UniteLast(list: seq<Settings>, f: Settings -> seq<string>)
    requires list != []
    ensures var last := f(list[|list| - 1]);
      MergedStrings([], last) == last + Firsts(Gathered(list[|list|..], f), Elements(last))
  {
    var last := f(list[|list| - 1]);
    assert list[|list|..] == [] && Gathered([], f) == [] && last + [] == last;
  }

  lemma UniteSnoc(front: seq<Settings>, last: Settings, i: nat, f: Settings -> seq<string>)
    requires i < |front| && f(front[i]) != []
    ensures var first := f(front[i]);
      MergedStrings(first + Firsts(Gathered(front[i + 1..], f), Elements(first)), f(last)) ==
      first + Firsts(Gathered((front + [last])[i + 1..], f), Elements(first))
  {
    var first, more := f(front[i]), Gathered(front[i + 1..], f);
    assert (front + [last])[i + 1..] == front[i + 1..] + [last];
    assert (front[i + 1..] + [last])[..|front[i + 1..]|] == front[i + 1..];
    assert Gathered((front + [last])[i + 1..], f) == more + f(last);
    FirstsAppend(more, f(last), Elements(first));
    ElementsAppend(first, Firsts(more, Elements(first)));
    assert Elements(first + Firsts(more, Elements(first))) == Elements(first) + Elements(more);
    Regroup(first, Firsts(more, Elements(first)), Firsts(f(last), Elements(first) + Elements(more)));
  }

  /** Appended lists hold what all sources list, in order; united ones hold it once. */
  lemma ListsOfAllSources(list: seq<Settings>)
    ensures MergedAll(list).allowedMCPServers == Gathered(list, (s: Settings) => s.allowedMCPServers)
    ensures Rules(MergedAll(list)).allow == Gathered(list, (s: Settings) => Rules(s).allow)
    ensures Rules(MergedAll(list)).deny == Gathered(list, (s: Settings) => Rules(s).deny)
    ensures Rules(MergedAll(list)).ask == Gathered(list, (s: Settings) => Rules(s).ask)
    ensures Rules(MergedAll(list)).additionalDirectories ==
            Gathered(list, (s: Settings) => Rules(s).additionalDirectories)
    ensures Unites(list, (s: Settings) => s.availableModels)
    ensures Unites(list, (s: Settings) => Trees(s).sparsePaths)
  {
    ListKinds();
    hide Unites, AddsNew, Appends, Gathered, MergedAll;
    AppendsGather(list, (s: Settings) => s.allowedMCPServers);
    AppendsGather(list, (s: Settings) => Rules(s).allow);
    AppendsGather(list, (s: Settings) => Rules(s).deny);
    AppendsGather(list, (s: Settings) => Rules(s).ask);
    AppendsGather(list, (s: Settings) => Rules(s).additionalDirectories);
    UnionsUnite(list, (s: Settings) => s.availableModels);
    UnionsUnite(list, (s: Settings) => Trees(s).sparsePaths);
  }

  /** What one source does to the lists of those before it. */
  lemma ListKinds()
    ensures Appends((s: Settings) => s.allowedMCPServers)
    ensures Appends((s: Settings) => Rules(s).allow)
    ensures Appends((s: Settings) => Rules(s).deny)
    ensures Appends((s: Settings) => Rules(s).ask)
    ensures Appends((s: Settings) => Rules(s).additionalDirectories)
    ensures AddsNew((s: Settings) => s.availableModels)
    ensures AddsNew((s: Settings) => Trees(s).sparsePaths)
  {
    forall a, b
      ensures var m, x, y := Rules(Merged(a, b)), Rules(a), Rules(b);
        && m.allow == x.allow + y.allow && m.deny == x.deny + y.deny && m.ask == x.ask + y.ask
        && m.additionalDirectories == x.additionalDirectories + y.additionalDirectories
      ensures Trees(Merged(a, b)).sparsePaths == MergedStrings(Trees(a).sparsePaths, Trees(b).sparsePaths)
      ensures var m := Merged(a, b);
        && m.allowedMCPServers == a.allowedMCPServers + b.allowedMCPServers
        && m.availableModels == MergedStrings(a.availableModels, b.availableModels)
    {
      RulesMerge(a, b);
      TreesMerge(a, b);
    }
    hide Merged, MergedStrings, Rules, Trees;
  }

  lemma RulesMerge(a: Settings, b: Settings)
    ensures var m, x, y := Rules(Merged(a, b)), Rules(a), Rules(b);
      && m.allow == x.allow + y.allow && m.deny == x.deny + y.deny && m.ask == x.ask + y.ask
      && m.additionalDirectories == x.additionalDirectories + y.additionalDirectories
    ensures Rules(ZERO) == Permissions([], [], [], [], "", None, None) && Trees(ZERO) == Worktree(None, [])
  {
    hide Merge, MergedStrings, MergedWorktree, OverrideMap, AnyMap, LastMode, LastString;
  }

  lemma TreesMerge(a: Settings, b: Settings)
    ensures Trees(Merged(a, b)).sparsePaths == MergedStrings(Trees(a).sparsePaths, Trees(b).sparsePaths)
  {
    hide Merge, MergedPermissions, OverrideMap, AnyMap;
    MergedStringsUnit(Trees(a).sparsePaths);
    hide MergedStrings;
  }

  // ---------- The nested map ----------

  function Sandboxes(list: seq<Settings>): (vs: seq<Value>)
    ensures |vs| == |list|
  {
    seq(|list|, i requires 0 <= i < |list| => SandboxOf(list[i]))
  }

  lemma {:induction false} SandboxFolds(a: Settings, list: seq<Settings>)
    ensures SandboxOf(MergedFrom(a, list)) == FoldFrom(SandboxOf(a), Sandboxes(list))
    ensures list != [] ==> MergedFrom(a, list).sandbox.Some? && MergedFrom(a, list).enabledPlugins.Some?
    decreases |list|
  {
    if list != [] {
      assert Sandboxes(list)[1..] == Sandboxes(list[1..]);
      SandboxFolds(Merged(a, list[0]), list[1..]);
      assert SandboxOf(Merged(a, list[0])) == Merge(SandboxOf(a), SandboxOf(list[0]));
      hide Merge;
    }
  }

  lemma NothingMerges(v: Value)
    requires v.Dict?
    ensures Merge(Dict(map[]), v) == v && Merge(v, Dict(map[])) == v
  {
  }

  lemma {:induction false} MergedAppend(a: Settings, xs: seq<Settings>, ys: seq<Settings>)
    ensures MergedFrom(a, xs + ys) == MergedFrom(MergedFrom(a, xs), ys)
    decreases |xs|
  {
    hide Merged;
    if xs == [] {
      assert xs + ys == ys;
    } else {
      assert (xs + ys)[1..] == xs[1..] + ys;
      MergedAppend(Merged(a, xs[0]), xs[1..], ys);
    }
  }

  /** When merging the sources with an already merged list equals merging everything at once. */
  ghost predicate NestingFlattens(xs: seq<Settings>, ys: seq<Settings>) {
    && (xs != [] || ys != [])
    && (ys != [] ==> Flattens(SandboxOf(MergedAll(xs)), Sandboxes(ys)))
  }

  lemma SandboxFlattens(xs: seq<Settings>, ys: seq<Settings>)
    requires ys != []
    ensures SandboxOf(Merged(MergedAll(xs), MergedAll(ys))) == SandboxOf(MergedFrom(MergedAll(xs), ys))
       <==> Flattens(SandboxOf(MergedAll(xs)), Sandboxes(ys))
  {
    var a, vs := MergedAll(xs), Sandboxes(ys);
    SandboxFolds(a, ys);
    SandboxFolds(ZERO, ys);
    NothingMerges(vs[0]);
    assert FoldFrom(SandboxOf(ZERO), vs) == Fold(vs);
    FlattensExactly(SandboxOf(a), vs);
    hide Merge, FoldFrom, Flattens;
  }

  lemma SettingsSplit(s: Settings, t: Settings)
    requires s.sandbox.Some? && t.sandbox.Some?
    ensures s == t <==> Flat(s) == Flat(t) && SandboxOf(s) == SandboxOf(t)
  {
  }

  /** Managed settings are merged first and then merged over user, project and local settings. That
      equals one merge of the whole list exactly under `NestingFlattens`. */
  lemma NestedMergeExactly(xs: seq<Settings>, ys: seq<Settings>)
    ensures MergedAll(xs + [MergedAll(ys)]) == MergedAll(xs + ys) <==> NestingFlattens(xs, ys)
  {
    hide Merged, Flattens;
    var a := MergedAll(xs);
    MergedAppend(ZERO, xs, ys);
    MergedSnoc(ZERO, xs, MergedAll(ys));
    if ys != [] {
      FlatFlattens(a, ys);
      SandboxFlattens(xs, ys);
      SandboxFolds(a, ys);
      MergedHasSandbox(a, MergedAll(ys));
      SettingsSplit(Merged(a, MergedAll(ys)), MergedFrom(a, ys));
    } else {
      assert xs + ys == xs;
      MergedHasSandbox(a, ZERO);
      if xs != [] {
        SandboxFolds(ZERO, xs);
        FlatUnit(a, ZERO);
        SettingsSplit(Merged(a, ZERO), a);
      }
    }
  }

  lemma MergedHasSandbox(a: Settings, b: Settings)
    ensures Merged(a, b).sandbox.Some?
    ensures b == ZERO ==> SandboxOf(Merged(a, b)) == SandboxOf(a)
  {
    NothingMerges(SandboxOf(a));
    hide Merge;
  }
}
