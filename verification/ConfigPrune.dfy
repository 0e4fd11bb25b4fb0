/** Minimising a config against its base: pruning equal entries and merging them back. */
module ConfigPrune {
  import opened Wrappers

  // A config tree without interpolations and override markers. Numbers and booleans are literals.
  datatype Leaf = Null | Text(text: string) | Literal(text: string)

  datatype Tree =
    | Scalar(value: Leaf)
    | Listing(items: seq<Tree>)
    | Mapping(entries: map<string, Tree>)

  const EMPTY := Mapping(map[])
  const EMPTY_LIST := Listing([])

  // OmegaConf.merge: mappings are merged key by key, anything else in the override replaces.
  function Merge(base: Tree, child: Tree): Tree
    decreases child
  {
    if base.Mapping? && child.Mapping? then
      Mapping(map k | k in base.entries.Keys + child.entries.Keys ::
                if k !in child.entries then base.entries[k]
                else if k !in base.entries then child.entries[k]
                else Merge(base.entries[k], child.entries[k]))
    else child
  }

  // _prune_equal: None is the sentinel for removal.
  function PruneEqual(a: Tree, b: Tree): Option<Tree>
    decreases a, 1
  {
    if a.Mapping? && b.Mapping? then Some(Pruned(a, b))
    else if a == b then None
    else Some(a)
  }

  // The entries of a mapping that are kept, pruned themselves; entries that become empty are dropped.
  function Pruned(a: Tree, b: Tree): (r: Tree)
    requires a.Mapping? && b.Mapping?
    ensures r.Mapping? && r.entries.Keys <= a.entries.Keys
    decreases a, 0
  {
    Mapping(map k | k in a.entries && (k in b.entries ==> Stays(PruneEqual(a.entries[k], b.entries[k]))) ::
              if k in b.entries then PruneEqual(a.entries[k], b.entries[k]).value else a.entries[k])
  }

  predicate Stays(pruned: Option<Tree>) {
    pruned.Some? && pruned.value != EMPTY && pruned.value != EMPTY_LIST
  }

  // ---------------------------------------------------------------- pruning preserves the merged config

  // No empty mapping or list of the child is lost: it stands where the base has nothing, an equal
  // value, or (for a mapping) a mapping.
  predicate NoLostEmpty(a: Tree, b: Tree)
    decreases a
  {
    if a.Mapping? && b.Mapping? then
      forall k :: k in a.entries.Keys * b.entries.Keys ==> NoLostEmpty(a.entries[k], b.entries[k])
    else (a == EMPTY || a == EMPTY_LIST) ==> a == b
  }

  lemma MergeEmpty(b: Tree)
    requires b.Mapping?
    ensures Merge(b, EMPTY) == b
  {
    assert Merge(b, EMPTY).entries == b.entries;
  }

  lemma MergeIntoEmpty(b: Tree)
    ensures Merge(EMPTY, b) == b
  {
    if b.Mapping? {
      assert Merge(EMPTY, b).entries == b.entries;
    }
  }

  // What the base inherits at a key, nothing counting as an empty mapping.
  function Below(g: Tree, k: string): Tree {
    if g.Mapping? && k in g.entries then g.entries[k] else EMPTY
  }

  lemma MergedEntry(g: Tree, b: Tree, k: string)
    requires g.Mapping? && b.Mapping? && k in b.entries
    ensures k in Merge(g, b).entries && Merge(g, b).entries[k] == Merge(Below(g, k), b.entries[k])
  {
    MergeIntoEmpty(b.entries[k]);
  }

  // What one shared entry contributes to the merge over g and b after pruning against b.
  function Kept(g: Tree, a: Tree, b: Tree): Tree {
    var p := PruneEqual(a, b);
    if Stays(p) then Merge(Merge(g, b), p.value) else Merge(g, b)
  }

  lemma MergedEntries(g: Tree, a: Tree, b: Tree)
    requires g.Mapping? && a.Mapping? && b.Mapping?
    ensures var m, whole := Merge(Merge(g, b), Pruned(a, b)).entries, Merge(Merge(g, b), a).entries;
            && m.Keys == whole.Keys
            && (forall k :: k in m && !(k in a.entries && k in b.entries) ==> m[k] == whole[k])
            && (forall k :: k in a.entries && k in b.entries ==>
                  m[k] == Kept(Below(g, k), a.entries[k], b.entries[k])
                  && whole[k] == Merge(Merge(Below(g, k), b.entries[k]), a.entries[k]))
  {
    hide PruneEqual, Stays, Below;
    var over := Merge(g, b);
    var m, whole := Merge(over, Pruned(a, b)).entries, Merge(over, a).entries;
    assert m.Keys == over.entries.Keys + Pruned(a, b).entries.Keys;
    assert whole.Keys == over.entries.Keys + a.entries.Keys;
    forall k | k in whole ensures k in m {
      if k !in over.entries { assert k in Pruned(a, b).entries; }
    }
    forall k | k in b.entries ensures k in over.entries && over.entries[k] == Merge(Below(g, k), b.entries[k]) {
      MergedEntry(g, b, k);
    }
  }

  // A child that prunes to nothing against b changes nothing over b either.
  lemma SharedEntry(g: Tree, a: Tree, b: Tree)
    ensures Kept(g, a, b) == Merge(Merge(g, b), a) <==> NoLostEmpty(a, b)
    decreases a, 1
  {
    if a.Mapping? && b.Mapping? {
      var inherited := if g.Mapping? then g else EMPTY;
      MergeIntoEmpty(b);
      PruningOverParents(inherited, a, b);
      MergeEmpty(Merge(g, b));
      hide Pruned, Merge;
    }
  }

  // The child is pruned against b and then merged over all that b stands on: nothing of the merged
  // config changes exactly when no empty entry is lost.
  lemma {:induction false} PruningOverParents(g: Tree, a: Tree, b: Tree)
    requires g.Mapping? && a.Mapping? && b.Mapping?
    ensures Merge(Merge(g, b), Pruned(a, b)) == Merge(Merge(g, b), a) <==> NoLostEmpty(a, b)
    decreases a, 0
  {
    hide Merge, Pruned, Below;
    MergedEntries(g, a, b);
    forall k | k in a.entries && k in b.entries
      ensures Kept(Below(g, k), a.entries[k], b.entries[k]) == Merge(Merge(Below(g, k), b.entries[k]), a.entries[k])
         <==> NoLostEmpty(a.entries[k], b.entries[k])
    {
      SharedEntry(Below(g, k), a.entries[k], b.entries[k]);
    }
    MergeOfMappings(g, b);
    MergeOfMappings(Merge(g, b), a);
    MergeOfMappings(Merge(g, b), Pruned(a, b));
    var shared := a.entries.Keys * b.entries.Keys;
    assert forall k :: k in shared <==> k in a.entries && k in b.entries;
    SameEntries(Merge(Merge(g, b), Pruned(a, b)), Merge(Merge(g, b), a), shared);
  }

  lemma MergeOfMappings(b: Tree, a: Tree)
    requires a.Mapping? && b.Mapping?
    ensures Merge(b, a).Mapping? && a.entries.Keys <= Merge(b, a).entries.Keys
  {
  }

  lemma SameEntries(m: Tree, n: Tree, shared: set<string>)
    requires m.Mapping? && n.Mapping? && m.entries.Keys == n.entries.Keys && shared <= m.entries.Keys
    requires forall k :: k in m.entries && k !in shared ==> m.entries[k] == n.entries[k]
    ensures m == n <==> forall k :: k in shared ==> m.entries[k] == n.entries[k]
  {
    if forall k :: k in shared ==> m.entries[k] == n.entries[k] {
      assert m.entries == n.entries;
    }
  }

  // Merging the pruned child gives the merge of the child exactly when no empty entry is lost.
  lemma PruningPreservesMeaning(a: Tree, b: Tree)
    requires a.Mapping? && b.Mapping?
    ensures Merge(b, Pruned(a, b)) == Merge(b, a) <==> NoLostEmpty(a, b)
  {
    MergeIntoEmpty(b);
    PruningOverParents(EMPTY, a, b);
    hide Merge, Pruned;
  }

  // An empty mapping over a scalar is lost: the base's value comes back.
  lemma EmptyIsLost(key: string, value: Leaf)
    ensures var child, base := Mapping(map[key := EMPTY]), Mapping(map[key := Scalar(value)]);
            && Merge(base, child).entries[key] == EMPTY
            && Merge(base, Pruned(child, base)).entries[key] == Scalar(value)
  {
    var child, base := Mapping(map[key := EMPTY]), Mapping(map[key := Scalar(value)]);
    assert PruneEqual(EMPTY, Scalar(value)) == Some(EMPTY);
    assert Pruned(child, base) == EMPTY;
  }

  // ---------------------------------------------------------------- pruning twice is pruning once

  lemma PrunedEntry(a: Tree, b: Tree, k: string)
    requires a.Mapping? && b.Mapping? && k in a.entries
    ensures k in Pruned(a, b).entries <==> (k in b.entries ==> Stays(PruneEqual(a.entries[k], b.entries[k])))
    ensures k in Pruned(a, b).entries ==>
              Pruned(a, b).entries[k] == if k in b.entries then PruneEqual(a.entries[k], b.entries[k]).value else a.entries[k]
  {
    hide Stays;
  }

  // No condition is needed here.
  lemma {:induction false} PruningIsIdempotent(a: Tree, b: Tree)
    requires a.Mapping? && b.Mapping?
    ensures Pruned(Pruned(a, b), b) == Pruned(a, b)
    decreases a, 0
  {
    hide Pruned, PruneEqual;
    var p := Pruned(a, b);
    var q := Pruned(p, b);
    forall k | k in p.entries ensures k in q.entries && q.entries[k] == p.entries[k] {
      PrunedEntry(a, b, k);
      PrunedEntry(p, b, k);
      if k in b.entries {
        EntryStable(a.entries[k], b.entries[k]);
      }
    }
    assert q.entries == p.entries;
  }

  lemma EntryStable(a: Tree, b: Tree)
    requires PruneEqual(a, b).Some?
    ensures PruneEqual(PruneEqual(a, b).value, b) == PruneEqual(a, b)
    decreases a, 1
  {
    if a.Mapping? && b.Mapping? {
      PruningIsIdempotent(a, b);
    }
  }

  // ---------------------------------------------------------------- nothing more can be dropped

  // A pruned config that is not empty changes its base.
  lemma {:induction false} PrunedChangesBase(a: Tree, b: Tree)
    requires a.Mapping? && b.Mapping? && Pruned(a, b) != EMPTY
    ensures Merge(b, Pruned(a, b)) != b
    decreases a
  {
    var p := Pruned(a, b);
    assert p.entries != map[];
    var k :| k in p.entries;
    EntryChangesBase(a, b, k);
  }

  lemma EntryChangesBase(a: Tree, b: Tree, k: string)
    requires a.Mapping? && b.Mapping? && k in Pruned(a, b).entries
    ensures var merged := Merge(b, Pruned(a, b));
            k in merged.entries && (k in b.entries ==> merged.entries[k] != b.entries[k])
    decreases a, 0
  {
    if k in b.entries && a.entries[k].Mapping? && b.entries[k].Mapping? {
      PrunedChangesBase(a.entries[k], b.entries[k]);
    }
  }

  // Dropping the entry at a path of keys.
  predicate HasPath(t: Tree, path: seq<string>)
    decreases |path|
  {
    && |path| > 0 && t.Mapping? && path[0] in t.entries
    && (|path| > 1 ==> HasPath(t.entries[path[0]], path[1..]))
  }

  function Remove(t: Tree, path: seq<string>): Tree
    requires HasPath(t, path)
    decreases |path|
  {
    if |path| == 1 then Mapping(t.entries - {path[0]})
    else Mapping(t.entries[path[0] := Remove(t.entries[path[0]], path[1..])])
  }

  lemma {:induction false} RemoveChanges(t: Tree, path: seq<string>)
    requires HasPath(t, path)
    ensures Remove(t, path) != t
    decreases |path|
  {
    if |path| == 1 {
      assert path[0] !in Remove(t, path).entries;
    } else {
      RemoveChanges(t.entries[path[0]], path[1..]);
      assert Remove(t, path).entries[path[0]] != t.entries[path[0]];
    }
  }

  // The entries of a mapping are paths, and so are the paths of its entries.
  lemma PathsOfEntries(t: Tree, k: string, rest: seq<string>)
    requires t.Mapping?
    ensures HasPath(t, [k]) <==> k in t.entries
    ensures |rest| > 0 ==> (HasPath(t, [k] + rest) <==> k in t.entries && HasPath(t.entries[k], rest))
    ensures HasPath(t, [k]) ==> Remove(t, [k]) == Mapping(t.entries - {k})
    ensures |rest| > 0 && HasPath(t, [k] + rest) ==>
              Remove(t, [k] + rest) == Mapping(t.entries[k := Remove(t.entries[k], rest)])
  {
    assert ([k] + rest)[1..] == rest;
  }

  // Every entry that pruning leaves, at any depth, matters: without it the merge is another config.
  lemma {:induction false} PrunedIsMinimal(a: Tree, b: Tree, path: seq<string>)
    requires a.Mapping? && b.Mapping? && HasPath(Pruned(a, b), path)
    ensures Merge(b, Remove(Pruned(a, b), path)) != Merge(b, Pruned(a, b))
    decreases a
  {
    var p := Pruned(a, b);
    var k := path[0];
    var less := Remove(p, path);
    if |path| == 1 {
      EntryChangesBase(a, b, k);
      assert k !in less.entries;
    } else if k in b.entries && b.entries[k].Mapping? {
      assert p.entries[k] == Pruned(a.entries[k], b.entries[k]);
      PrunedIsMinimal(a.entries[k], b.entries[k], path[1..]);
    } else {
      RemoveChanges(p.entries[k], path[1..]);
    }
    hide Pruned;
    DifferentEntry(b, p, less, k);
  }

  lemma DifferentEntry(b: Tree, p: Tree, less: Tree, k: string)
    requires b.Mapping? && p.Mapping? && less.Mapping? && k in p.entries
    requires if k !in less.entries then k !in b.entries || b.entries[k] != Merge(b, p).entries[k]
             else if k in b.entries then Merge(b.entries[k], less.entries[k]) != Merge(b.entries[k], p.entries[k])
             else less.entries[k] != p.entries[k]
    ensures Merge(b, less) != Merge(b, p)
  {
    var m, n := Merge(b, less).entries, Merge(b, p).entries;
    assert k in n;
    if k in m {
      assert m[k] != n[k];
    }
  }

  // ---------------------------------------------------------------- minimize and minimize-check

  const DEFAULTS := "defaults"

  datatype MinimizeError = NotAMapping | NoDefaults | DefaultsNotAString

  // The base is inferred from the child's defaults and then loaded with all that it inherits, or it
  // is given by --base: then the file is taken as it stands, beside the parents that its own defaults
  // name, merged.
  datatype Base = Inferred(config: Tree) | Explicit(file: Tree, parents: Tree, path: string)

  function WithoutDefaults(t: Tree): (r: Tree)
    requires t.Mapping?
    ensures r.Mapping? && r.entries.Keys == t.entries.Keys - {"defaults"}
    ensures forall k :: k in r.entries ==> r.entries[k] == t.entries[k]
  {
    Mapping(t.entries - {DEFAULTS})
  }

  // What the child is pruned against.
  function Compared(base: Base): Tree {
    match base
    case Inferred(config) => config
    case Explicit(file, _, _) => file
  }

  predicate NamesBase(child: Tree)
    requires child.Mapping?
  {
    DEFAULTS in child.entries && child.entries[DEFAULTS].Scalar? && child.entries[DEFAULTS].value.Text?
  }

  // The config that minimize writes. An explicit base's path becomes the defaults entry; the entry
  // that an inferred base comes from stays.
  function Minimize(child: Tree, base: Base): (r: Result<Tree, MinimizeError>)
    ensures r.Ok? <==> child.Mapping? && Compared(base).Mapping? && (base.Inferred? ==> NamesBase(child))
    ensures r.Ok? ==> r.value.Mapping? && "defaults" in r.value.entries && NamesBase(r.value)
    ensures r.Ok? ==> r.value.entries["defaults"] == (if base.Explicit? then Scalar(Text(base.path)) else child.entries["defaults"])
    ensures r == Err(NoDefaults) <==>
              child.Mapping? && base.Inferred? && ("defaults" !in child.entries || child.entries["defaults"] == Scalar(Null))
    ensures r == Err(DefaultsNotAString) <==>
              && child.Mapping? && base.Inferred? && "defaults" in child.entries
              && child.entries["defaults"] != Scalar(Null) && !NamesBase(child)
  {
    if !child.Mapping? then Err(NotAMapping)
    else if base.Inferred? && (DEFAULTS !in child.entries || child.entries[DEFAULTS] == Scalar(Null)) then Err(NoDefaults)
    else if base.Inferred? && !NamesBase(child) then Err(DefaultsNotAString)
    else if !Compared(base).Mapping? then Err(NotAMapping)
    else
      var defaults := if base.Explicit? then Scalar(Text(base.path)) else child.entries[DEFAULTS];
      Ok(Mapping(Pruned(WithoutDefaults(child), Compared(base)).entries[DEFAULTS := defaults]))
  }

  // minimize-check: minimising would not change the file.
  predicate MinimizeCheck(child: Tree, base: Base) {
    Minimize(child, base) == Ok(child)
  }

  lemma MinimizedEntries(child: Tree, base: Base)
    requires Minimize(child, base).Ok?
    ensures WithoutDefaults(Minimize(child, base).value) == Pruned(WithoutDefaults(child), Compared(base))
  {
    var rest := WithoutDefaults(child);
    assert WithoutDefaults(Minimize(child, base).value).entries == Pruned(rest, Compared(base)).entries;
  }

  // minimize-check accepts what minimize writes.
  lemma CheckAcceptsMinimized(child: Tree, base: Base)
    requires Minimize(child, base).Ok?
    ensures MinimizeCheck(Minimize(child, base).value, base)
  {
    hide Pruned;
    MinimizedEntries(child, base);
    PruningIsIdempotent(WithoutDefaults(child), Compared(base));
  }

  // It accepts nothing else.
  lemma CheckAcceptsOnlyMinimized(child: Tree, base: Base)
    ensures MinimizeCheck(child, base) <==> exists original :: Minimize(original, base) == Ok(child)
  {
    hide Minimize;
    if exists original :: Minimize(original, base) == Ok(child) {
      var original :| Minimize(original, base) == Ok(child);
      CheckAcceptsMinimized(original, base);
    }
  }

  // The base's own defaults entry meets nothing in a child without one.
  lemma DefaultsDoNotMatter(a: Tree, b: Tree)
    requires a.Mapping? && b.Mapping? && DEFAULTS !in a.entries
    ensures Pruned(a, b) == Pruned(a, WithoutDefaults(b))
    ensures NoLostEmpty(a, b) <==> NoLostEmpty(a, WithoutDefaults(b))
  {
    assert a.entries.Keys * b.entries.Keys == a.entries.Keys * WithoutDefaults(b).entries.Keys;
    var p, q := Pruned(a, b), Pruned(a, WithoutDefaults(b));
    forall k | k in a.entries ensures k in p.entries <==> k in q.entries
                              ensures k in p.entries ==> p.entries[k] == q.entries[k]
    {
      PrunedEntry(a, b, k);
      PrunedEntry(a, WithoutDefaults(b), k);
    }
    hide Pruned, PruneEqual, Stays;
    assert p.entries == q.entries;
  }

  // Minimising keeps what the child means over the base, inferred or given, exactly when no empty
  // entry of the child is lost. A base other than the child's old one is a new parent: the meaning
  // under the old one is not kept.
  lemma MinimizePreservesMeaning(child: Tree, base: Base)
    requires Minimize(child, base).Ok? && (base.Explicit? ==> base.parents.Mapping?)
    ensures var minimized := Minimize(child, base).value;
            match base
            case Inferred(config) =>
              Merge(config, WithoutDefaults(minimized)) == Merge(config, WithoutDefaults(child))
              <==> NoLostEmpty(WithoutDefaults(child), config)
            case Explicit(file, parents, _) =>
              Merge(Merge(parents, WithoutDefaults(file)), WithoutDefaults(minimized))
              == Merge(Merge(parents, WithoutDefaults(file)), WithoutDefaults(child))
              <==> NoLostEmpty(WithoutDefaults(child), file)
  {
    hide Pruned, Merge, NoLostEmpty;
    var rest := WithoutDefaults(child);
    MinimizedEntries(child, base);
    if base.Inferred? {
      PruningPreservesMeaning(rest, base.config);
    } else {
      DefaultsDoNotMatter(rest, base.file);
      PruningOverParents(base.parents, rest, WithoutDefaults(base.file));
    }
  }
}
