/** Choosing the hook pair of a function: the first-match search over the plugin
    list, and the memo table in front of it that is never invalidated. */
module HookTable {
  import opened Common

  /** A function as the agent names it: its scope class, if any, and its name. */
  datatype Key = Key(scope: Option<string>, name: string)

  /** The identities of a before hook and of the after hook that belongs to it. */
  datatype HookPair = HookPair(before: nat, after: nat)

  /** The classes loaded so far; each with every class it is an instance of. */
  type ClassTable = map<string, set<string>>

  /** What a plugin answers to the questions of the `Plugin` trait. A parent
      class that is not loaded is a None entry. */
  datatype Plugin = Plugin(
    classNames: Option<seq<string>>,
    parents: Option<seq<Option<string>>>,
    prefix: Option<string>,
    hook: Key -> Option<HookPair>)

  predicate HasListedClass(p: Plugin, cls: string) {
    p.classNames.Some? && cls in p.classNames.value
  }

  predicate HasLoadedParent(p: Plugin, classes: ClassTable, cls: string) {
    p.parents.Some? && cls in classes
    && exists i :: 0 <= i < |p.parents.value| && p.parents.value[i].Some? && p.parents.value[i].value in classes[cls]
  }

  predicate HasPrefix(p: Plugin, name: string) {
    p.prefix.Some? && p.prefix.value <= name
  }

  /** The plugin claims the function: by class name, by parent class or by the
      prefix of the function name. */
  predicate Claims(p: Plugin, classes: ClassTable, key: Key) {
    || (key.scope.Some? && HasListedClass(p, key.scope.value))
    || (key.scope.Some? && HasLoadedParent(p, classes, key.scope.value))
    || HasPrefix(p, key.name)
  }

  /** Who claims a function: a plugin that lists its class, or a parent that its loaded
      class descends from, or has a prefix that its name begins with. */
  lemma ClaimsExactly(p: Plugin, classes: ClassTable, key: Key)
    ensures Claims(p, classes, key) <==>
              || (key.scope.Some? && p.classNames.Some?
                  && exists i :: 0 <= i < |p.classNames.value| && p.classNames.value[i] == key.scope.value)
              || (key.scope.Some? && p.parents.Some? && key.scope.value in classes
                  && exists i :: 0 <= i < |p.parents.value| && p.parents.value[i].Some?
                                 && p.parents.value[i].value in classes[key.scope.value])
              || (p.prefix.Some? && exists rest :: key.name == p.prefix.value + rest)
  {
    if p.prefix.Some? && p.prefix.value <= key.name {
      assert key.name == p.prefix.value + key.name[|p.prefix.value|..];
    }
  }

  /** The lowest index, from `start` on, of a plugin that claims the function. */
  function FirstClaim(plugins: seq<Plugin>, classes: ClassTable, key: Key, start: nat): (r: Option<nat>)
    requires start <= |plugins|
    ensures r.Some? ==> start <= r.value < |plugins| && Claims(plugins[r.value], classes, key)
                        && forall j :: start <= j < r.value ==> !Claims(plugins[j], classes, key)
    ensures r.None? ==> forall j :: start <= j < |plugins| ==> !Claims(plugins[j], classes, key)
    decreases |plugins| - start
  {
    if start == |plugins| then None
    else if Claims(plugins[start], classes, key) then Some(start)
    else FirstClaim(plugins, classes, key, start + 1)
  }

  /** The uncached answer. A plugin that claims a function but has no hook for
      it ends the search all the same. */
  function Search(plugins: seq<Plugin>, classes: ClassTable, key: Key): Option<HookPair> {
    match FirstClaim(plugins, classes, key, 0)
    case None => None
    case Some(i) => plugins[i].hook(key)
  }

  /** The search loop, with its two labelled breaks. */
  method SelectPlugin(plugins: seq<Plugin>, classes: ClassTable, key: Key) returns (selected: Option<nat>)
    ensures selected.Some? ==> selected.value < |plugins| && Claims(plugins[selected.value], classes, key)
                               && forall j :: 0 <= j < selected.value ==> !Claims(plugins[j], classes, key)
    ensures selected.None? ==> forall j :: 0 <= j < |plugins| ==> !Claims(plugins[j], classes, key)
  {
    selected := None;
    var n := 0;
    label search: while n < |plugins|
      invariant 0 <= n <= |plugins|
      invariant selected.None?
      invariant forall j :: 0 <= j < n ==> !Claims(plugins[j], classes, key)
    {
      var plugin := plugins[n];
      if key.scope.Some? {
        var cls := key.scope.value;
        if plugin.classNames.Some? && cls in plugin.classNames.value {
          selected := Some(n);
          break search;
        }
        if plugin.parents.Some? && cls in classes {
          var i := 0;
          while i < |plugin.parents.value|
            invariant 0 <= i <= |plugin.parents.value|
            invariant forall j :: 0 <= j < i && plugin.parents.value[j].Some? ==>
                                    plugin.parents.value[j].value !in classes[cls]
          {
            var parent := plugin.parents.value[i];
            if parent.Some? && parent.value in classes[cls] {
              selected := Some(n);
              break search;
            }
            i := i + 1;
          }
        }
      }
      if plugin.prefix.Some? && plugin.prefix.value <= key.name {
        selected := Some(n);
        break search;
      }
      n := n + 1;
    }
  }

  type Memo = map<Key, Option<HookPair>>

  /** The memo after one lookup: an entry, once there, is never replaced. */
  function Remember(memo: Memo, plugins: seq<Plugin>, classes: ClassTable, key: Key): (r: Memo)
    ensures key in r
    ensures forall k :: k in memo ==> k in r && r[k] == memo[k]
    ensures forall k :: k in r && k !in memo ==> k == key && r[k] == Search(plugins, classes, key)
  {
    if key in memo then memo else memo[key := Search(plugins, classes, key)]
  }

  /** `select_plugin_hook`: the memo filled on demand under the lock. */
  class HookMap {
    var entries: Memo

    constructor ()
      ensures entries == map[]
    {
      entries := map[];
    }

    method SelectPluginHook(plugins: seq<Plugin>, classes: ClassTable, key: Key) returns (pair: Option<HookPair>)
      modifies this
      ensures entries == Remember(old(entries), plugins, classes, key)
      ensures pair == entries[key]
    {
      if key !in entries {
        var found := None;
        var selected := SelectPlugin(plugins, classes, key);
        if selected.Some? {
          found := plugins[selected.value].hook(key);
        }
        entries := entries[key := found];
      }
      pair := entries[key];
    }
  }

  // ---- histories of lookups, with the class table changing between them ----

  datatype Lookup = Lookup(classes: ClassTable, key: Key)

  function MemoAfter(plugins: seq<Plugin>, history: seq<Lookup>): Memo {
    if history == [] then map[]
    else Remember(MemoAfter(plugins, Init(history)), plugins, Last(history).classes, Last(history).key)
  }

  /** The answer the i-th lookup of a history is given. */
  function Answer(plugins: seq<Plugin>, history: seq<Lookup>, i: nat): Option<HookPair>
    requires i < |history|
  {
    assert Last(history[..i + 1]) == history[i];
    MemoAfter(plugins, history[..i + 1])[history[i].key]
  }

  lemma {:induction false} MemoGrows(plugins: seq<Plugin>, history: seq<Lookup>, i: nat, j: nat, k: Key)
    requires i <= j <= |history| && k in MemoAfter(plugins, history[..i])
    ensures k in MemoAfter(plugins, history[..j])
    ensures MemoAfter(plugins, history[..j])[k] == MemoAfter(plugins, history[..i])[k]
    decreases j
  {
    if i < j {
      MemoGrows(plugins, history, i, j - 1, k);
      assert Init(history[..j]) == history[..j - 1];
    }
  }

  lemma {:induction false} MemoKeys(plugins: seq<Plugin>, history: seq<Lookup>, i: nat, k: Key)
    requires i <= |history| && k in MemoAfter(plugins, history[..i])
    ensures exists j :: 0 <= j < i && history[j].key == k
  {
    assert i > 0;
    assert Init(history[..i]) == history[..i - 1] && Last(history[..i]) == history[i - 1];
    if k in MemoAfter(plugins, history[..i - 1]) {
      MemoKeys(plugins, history, i - 1, k);
    }
  }

  /** However the class table moves, a key is answered as at its first lookup,
      and that first answer is the uncached search of that moment. So the before
      and the after hook of one call always come from one pair. */
  lemma {:induction false} AnswersAreFirstAnswers(plugins: seq<Plugin>, history: seq<Lookup>, first: nat, i: nat)
    requires first <= i < |history| && history[first].key == history[i].key
    requires forall j :: 0 <= j < first ==> history[j].key != history[first].key
    ensures Answer(plugins, history, i) == Answer(plugins, history, first)
    ensures Answer(plugins, history, first) == Search(plugins, history[first].classes, history[first].key)
  {
    var k := history[first].key;
    assert Init(history[..first + 1]) == history[..first] && Last(history[..first + 1]) == history[first];
    if k in MemoAfter(plugins, history[..first]) {
      MemoKeys(plugins, history, first, k);
    }
    MemoGrows(plugins, history, first + 1, i + 1, k);
  }

  lemma {:induction false} FirstLookupOf(history: seq<Lookup>, i: nat) returns (first: nat)
    requires i < |history|
    ensures first <= i && history[first].key == history[i].key
    ensures forall j :: 0 <= j < first ==> history[j].key != history[first].key
  {
    if j :| 0 <= j < i && history[j].key == history[i].key {
      first := FirstLookupOf(history, j);
    } else {
      first := i;
    }
  }

  // ---- what the search depends on: nothing of the class table but the ancestors ----

  /** What the function's class is an instance of. */
  function Ancestors(classes: ClassTable, key: Key): set<string> {
    if key.scope.Some? && key.scope.value in classes then classes[key.scope.value] else {}
  }

  function ByName(key: Key): Plugin -> bool {
    (p: Plugin) => (key.scope.Some? && HasListedClass(p, key.scope.value)) || HasPrefix(p, key.name)
  }

  function ByAncestors(ancestors: set<string>): Plugin -> bool {
    (p: Plugin) =>
      && p.parents.Some?
      && exists i :: 0 <= i < |p.parents.value| && p.parents.value[i].Some? && p.parents.value[i].value in ancestors
  }

  /** The first plugin that claims in this way, or the length of the list. */
  function FirstWhere(plugins: seq<Plugin>, claims: Plugin -> bool, start: nat): (r: nat)
    requires start <= |plugins|
    ensures start <= r <= |plugins| && (r < |plugins| ==> claims(plugins[r]))
    ensures forall j :: start <= j < r ==> !claims(plugins[j])
    decreases |plugins| - start
  {
    if start == |plugins| || claims(plugins[start]) then start else FirstWhere(plugins, claims, start + 1)
  }

  /** The plugin that gets the function through the ancestors of its class, ahead
      of all that claim it by name. */
  function Through(plugins: seq<Plugin>, key: Key, ancestors: set<string>): Option<nat> {
    var n := FirstWhere(plugins, ByAncestors(ancestors), 0);
    if n < FirstWhere(plugins, ByName(key), 0) then Some(n) else None
  }

  /** The hook of that plugin; without one, of the first that claims by name. */
  function HookOf(plugins: seq<Plugin>, key: Key, through: Option<nat>): Option<HookPair>
    requires through.Some? ==> through.value < |plugins|
  {
    var n := if through.Some? then through.value else FirstWhere(plugins, ByName(key), 0);
    if n < |plugins| then plugins[n].hook(key) else None
  }

  lemma ClaimsEitherWay(p: Plugin, classes: ClassTable, key: Key)
    ensures Claims(p, classes, key) <==> ByName(key)(p) || ByAncestors(Ancestors(classes, key))(p)
  {
  }

  lemma SearchByAncestors(plugins: seq<Plugin>, classes: ClassTable, key: Key)
    ensures Search(plugins, classes, key) == HookOf(plugins, key, Through(plugins, key, Ancestors(classes, key)))
  {
    var named, kin := FirstWhere(plugins, ByName(key), 0), FirstWhere(plugins, ByAncestors(Ancestors(classes, key)), 0);
    forall j | 0 <= j < |plugins|
      ensures Claims(plugins[j], classes, key)
              <==> ByName(key)(plugins[j]) || ByAncestors(Ancestors(classes, key))(plugins[j])
    {
      ClaimsEitherWay(plugins[j], classes, key);
    }
    var n := if kin < named then kin else named;
    var first := FirstClaim(plugins, classes, key, 0);
    if n < |plugins| {
      assert first == Some(n);
    } else {
      assert first == None;
    }
  }

  /** However the class table moves between lookups, the memo answers as the
      search would now exactly when the plugin that gets the function through
      its class's ancestors now, if any, has the hook of the one that did at the
      first lookup. */
  lemma MemoIsSearchExactly(plugins: seq<Plugin>, history: seq<Lookup>, first: nat, i: nat)
    requires first <= i < |history| && history[first].key == history[i].key
    requires forall j :: 0 <= j < first ==> history[j].key != history[first].key
    ensures var key := history[i].key;
            var before, now := Ancestors(history[first].classes, key), Ancestors(history[i].classes, key);
            Answer(plugins, history, i) == Search(plugins, history[i].classes, key)
            <==> HookOf(plugins, key, Through(plugins, key, before)) == HookOf(plugins, key, Through(plugins, key, now))
  {
    AnswersAreFirstAnswers(plugins, history, first, i);
    SearchByAncestors(plugins, history[first].classes, history[i].key);
    SearchByAncestors(plugins, history[i].classes, history[i].key);
  }

  /** So whatever else has been loaded, unchanged ancestors suffice. */
  lemma UnchangedAncestorsSuffice(plugins: seq<Plugin>, history: seq<Lookup>, first: nat, i: nat)
    requires first <= i < |history| && history[first].key == history[i].key
    requires forall j :: 0 <= j < first ==> history[j].key != history[first].key
    requires var key := history[i].key; Ancestors(history[first].classes, key) == Ancestors(history[i].classes, key)
    ensures Answer(plugins, history, i) == Search(plugins, history[i].classes, history[i].key)
  {
    MemoIsSearchExactly(plugins, history, first, i);
  }

  /** While the class table stands still the memo cannot be told from the
      uncached search. */
  lemma MemoIsSearchWhileClassesStandStill(plugins: seq<Plugin>, classes: ClassTable, history: seq<Lookup>, i: nat)
    requires i < |history|
    requires forall j :: 0 <= j < |history| ==> history[j].classes == classes
    ensures Answer(plugins, history, i) == Search(plugins, classes, history[i].key)
  {
    var first := FirstLookupOf(history, i);
    UnchangedAncestorsSuffice(plugins, history, first, i);
  }

  /** As in the agent's own list, where the PSR-3 plugin comes last and alone asks
      for ancestors. */
  predicate LastAsksForAncestors(plugins: seq<Plugin>) {
    && plugins != [] && Last(plugins).classNames.None? && Last(plugins).prefix.None?
    && forall j :: 0 <= j < |plugins| - 1 ==> plugins[j].parents.None?
  }

  /** For such a list: the memo is right exactly when another plugin claims the
      function by name, or the last has no hook for it, or the class descends
      from the last one's parents now as it did at the first lookup. */
  lemma MemoIsSearchExactlyForTheList(plugins: seq<Plugin>, history: seq<Lookup>, first: nat, i: nat)
    requires LastAsksForAncestors(plugins)
    requires first <= i < |history| && history[first].key == history[i].key
    requires forall j :: 0 <= j < first ==> history[j].key != history[first].key
    ensures var key := history[i].key;
            var before, now := Ancestors(history[first].classes, key), Ancestors(history[i].classes, key);
            Answer(plugins, history, i) == Search(plugins, history[i].classes, key)
            <==> || (exists j :: 0 <= j < |plugins| && ByName(key)(plugins[j]))
                 || Last(plugins).hook(key) == None
                 || ByAncestors(before)(Last(plugins)) == ByAncestors(now)(Last(plugins))
  {
    var key := history[i].key;
    MemoIsSearchExactly(plugins, history, first, i);
    ThroughTheLast(plugins, key, Ancestors(history[first].classes, key));
    ThroughTheLast(plugins, key, Ancestors(history[i].classes, key));
  }

  lemma ThroughTheLast(plugins: seq<Plugin>, key: Key, ancestors: set<string>)
    requires LastAsksForAncestors(plugins)
    ensures var named := FirstWhere(plugins, ByName(key), 0);
            && (named < |plugins| <==> exists j :: 0 <= j < |plugins| && ByName(key)(plugins[j]))
            && (named < |plugins| ==> Through(plugins, key, ancestors) == None)
            && (named == |plugins| ==>
                  Through(plugins, key, ancestors)
                      == if ByAncestors(ancestors)(Last(plugins)) then Some(|plugins| - 1) else None)
  {
    var named, kin := FirstWhere(plugins, ByName(key), 0), FirstWhere(plugins, ByAncestors(ancestors), 0);
    assert kin >= |plugins| - 1;
    assert !ByName(key)(Last(plugins));
  }

  /** A method of a class is looked up while it runs, so its class is loaded. */
  ghost predicate Receivable(history: seq<Lookup>) {
    forall i :: 0 <= i < |history| && history[i].key.scope.Some? ==> history[i].key.scope.value in history[i].classes
  }

  /** It can fail: the worker process lives on while each request declares its
      classes anew. A class that has become a logger since its first lookup
      stays without hooks. */
  lemma LateParentStaysUnhooked(pair: HookPair)
    ensures var plugin := Plugin(None, Some([Some("Psr\\Log\\LoggerInterface")]), None, _ => Some(pair));
            var key := Key(Some("App\\Log"), "info");
            var early: ClassTable := map["App\\Log" := {"App\\Log"}];
            var late: ClassTable := map["App\\Log" := {"App\\Log", "Psr\\Log\\LoggerInterface"}];
            var history := [Lookup(early, key), Lookup(late, key)];
            && Receivable(history) && LastAsksForAncestors([plugin])
            && Answer([plugin], history, 1) == None && Search([plugin], late, key) == Some(pair)
  {
    var plugin := Plugin(None, Some([Some("Psr\\Log\\LoggerInterface")]), None, _ => Some(pair));
    var key := Key(Some("App\\Log"), "info");
    var early: ClassTable := map["App\\Log" := {"App\\Log"}];
    var late: ClassTable := map["App\\Log" := {"App\\Log", "Psr\\Log\\LoggerInterface"}];
    var history := [Lookup(early, key), Lookup(late, key)];
    AnswersAreFirstAnswers([plugin], history, 0, 1);
    assert "App\\Log" != "Psr\\Log\\LoggerInterface" by { assert |"App\\Log"| == 7; }
    assert plugin.parents.value[0].value in late["App\\Log"];
    assert HasLoadedParent(plugin, late, "App\\Log");
  }
}
