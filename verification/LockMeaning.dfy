/**
 What lock references, normalised tables and changed entries mean, stated on the
 texts and tables themselves.
 */
module LockMeaning {
  import opened Options
  import opened Text
  import opened LockFile

  // ---------------------------------------------------------------- references

  /** A bare name fits every package of that name. */
  lemma BareNameFits(k: Key, name: string)
    requires ' ' !in name
    ensures Matches(k, name) <==> k.name == name
  {
    FieldsOfBare(name);
  }

  /** A version qualifier fits that version only. */
  lemma VersionFits(k: Key, q: Key)
    requires ' ' !in q.name && ' ' !in q.version
    ensures Matches(k, WithVersion(q)) <==> k.name == q.name && k.version == q.version
  {
    FieldsOfVersion(q);
  }

  /** The source itself, or a git source of which only the commit fragment is missing. */
  ghost predicate FromSource(source: Option<string>, reference: string) {
    || source == Some(reference)
    || ('#' !in reference && "git+" <= reference
        && exists fragment :: '#' !in fragment && source == Some(reference + "#" + fragment))
  }

  lemma {:induction false} CutFragment(s: string) returns (fragment: string)
    requires '#' in s
    ensures '#' !in fragment && s == Fragmentless(s) + "#" + fragment
    decreases |s|
  {
    var front, last := s[..|s| - 1], s[|s| - 1];
    assert s == front + [last];
    if last == '#' {
      fragment := "";
    } else {
      fragment := CutFragment(front);
      fragment := fragment + [last];
    }
  }

  lemma {:induction false} FragmentlessOf(s: string, fragment: string)
    requires '#' !in fragment
    ensures Fragmentless(s + "#" + fragment) == s
    decreases |fragment|
  {
    var whole := s + "#" + fragment;
    assert whole[|s|] == '#';
    if fragment == "" {
      assert whole[..|whole| - 1] == s;
    } else {
      var front := fragment[..|fragment| - 1];
      assert whole[..|whole| - 1] == s + "#" + front;
      assert whole[|whole| - 1] == fragment[|fragment| - 1];
      FragmentlessOf(s, front);
    }
  }

  lemma SourceMatchesIff(source: Option<string>, reference: string)
    ensures SourceMatches(source, reference) <==> FromSource(source, reference)
  {
    if SourceMatches(source, reference) && source != Some(reference) {
      if '#' in source.value {
        var fragment := CutFragment(source.value);
        assert source.value[..4] == "git+";
        assert |reference| >= 4 by {
          assert source.value[|reference|] == '#';
          assert "git+"[0] != '#' && "git+"[1] != '#' && "git+"[2] != '#' && "git+"[3] != '#';
        }
        assert reference[..4] == source.value[..4];
      }
    }
    if FromSource(source, reference) && source != Some(reference) {
      var fragment :| '#' !in fragment && source == Some(reference + "#" + fragment);
      FragmentlessOf(reference, fragment);
      assert source.value[..4] == reference[..4];
    }
  }

  /** A source qualifier fits that name, version and source only. */
  lemma SourceFits(k: Key, q: Key, source: string)
    requires ' ' !in q.name && ' ' !in q.version
    ensures Matches(k, WithSource(q, source)) <==>
              k.name == q.name && k.version == q.version && FromSource(k.source, source)
  {
    FieldsOfSource(q, source);
    UnwrappedSource(source);
    SourceMatchesIff(k.source, source);
  }

  lemma {:induction false} NoneMatches(reference: string, keys: seq<Key>)
    requires forall i | 0 <= i < |keys| :: !Matches(keys[i], reference)
    ensures Matching(reference, keys) == []
    decreases |keys|
  {
    if keys != [] {
      NoneMatches(reference, keys[1..]);
    }
  }

  lemma {:induction false} SomeMatches(reference: string, keys: seq<Key>, i: nat)
    requires i < |keys| && Matches(keys[i], reference)
    ensures Matching(reference, keys) != []
    decreases |keys|
  {
    if i > 0 {
      SomeMatches(reference, keys[1..], i - 1);
    }
  }

  lemma {:induction false} OneMatches(reference: string, keys: seq<Key>, i: nat)
    requires i < |keys| && Matches(keys[i], reference)
    ensures |Matching(reference, keys)| == 1 <==> forall j | 0 <= j < |keys| && j != i :: !Matches(keys[j], reference)
    ensures |Matching(reference, keys)| == 1 ==> Matching(reference, keys) == [keys[i]]
    decreases |keys|
  {
    var rest := keys[1..];
    if i == 0 {
      if forall j | 0 <= j < |rest| :: !Matches(rest[j], reference) {
        NoneMatches(reference, rest);
        forall j | 0 <= j < |keys| && j != i ensures !Matches(keys[j], reference) {
          assert keys[j] == rest[j - 1];
        }
      } else {
        var j :| 0 <= j < |rest| && Matches(rest[j], reference);
        SomeMatches(reference, rest, j);
        assert Matches(keys[j + 1], reference);
      }
    } else {
      OneMatches(reference, rest, i - 1);
      SomeMatches(reference, rest, i - 1);
      forall j | 0 < j < |keys| ensures keys[j] == rest[j - 1] {
      }
      if forall j | 0 <= j < |keys| && j != i :: !Matches(keys[j], reference) {
        forall j | 0 <= j < |rest| && j != i - 1 ensures !Matches(rest[j], reference) {
          assert rest[j] == keys[j + 1];
        }
      }
    }
  }

  /** A reference resolves exactly if one table fits it, and then to that table's identity. */
  lemma ResolvesIff(reference: string, keys: seq<Key>)
    ensures Resolve(reference, keys).Some? <==>
              exists i :: 0 <= i < |keys| && Matches(keys[i], reference)
                          && forall j | 0 <= j < |keys| && j != i :: !Matches(keys[j], reference)
    ensures forall i | 0 <= i < |keys| && Matches(keys[i], reference) && Resolve(reference, keys).Some? ::
              Resolve(reference, keys).value
              == Id(keys[i].name, keys[i].version, if keys[i].source.Some? then keys[i].source.value else "")
  {
    if i :| 0 <= i < |keys| && Matches(keys[i], reference) {
      OneMatches(reference, keys, i);
      forall k | 0 <= k < |keys| && Matches(keys[k], reference) && Resolve(reference, keys).Some?
        ensures Matching(reference, keys) == [keys[k]]
      {
        OneMatches(reference, keys, k);
      }
    } else {
      NoneMatches(reference, keys);
    }
  }

  // ---------------------------------------------------------------- normalised tables

  /** A table's dependencies normalise if every reference resolves. */
  lemma {:induction false} AllResolve(deps: seq<string>, keys: seq<Key>)
    requires forall d | d in deps :: Resolve(d, keys).Some?
    ensures ResolveAll(deps, keys).Some?
    decreases |deps|
  {
    if deps != [] {
      var front, last := deps[..|deps| - 1], deps[|deps| - 1];
      assert last in deps;
      forall d | d in front ensures Resolve(d, keys).Some? {
        assert d in deps;
      }
      AllResolve(front, keys);
    }
  }

  lemma ResolveOneMore(deps: seq<string>, keys: seq<Key>)
    requires deps != [] && ResolveAll(deps, keys).Some?
    ensures var n := |deps| - 1;
            && ResolveAll(deps[..n], keys).Some? && Resolve(deps[n], keys).Some?
            && ResolveAll(deps, keys).value
               == ResolveAll(deps[..n], keys).value + multiset{Resolve(deps[n], keys).value}
  {
  }

  /** And only then; they normalise to what each reference resolves to, none added and none lost. */
  lemma {:induction false} DependenciesResolve(deps: seq<string>, keys: seq<Key>) returns (ids: seq<Id>)
    requires ResolveAll(deps, keys).Some?
    ensures |ids| == |deps| && ResolveAll(deps, keys).value == multiset(ids)
    ensures forall i | 0 <= i < |deps| :: Resolve(deps[i], keys) == Some(ids[i])
    decreases |deps|
  {
    ids := [];
    if deps != [] {
      var n := |deps| - 1;
      ResolveOneMore(deps, keys);
      var front := DependenciesResolve(deps[..n], keys);
      ids := front + [Resolve(deps[n], keys).value];
      forall i | 0 <= i < |deps| ensures Resolve(deps[i], keys) == Some(ids[i]) {
        assert i < n ==> deps[..n][i] == deps[i];
      }
    }
  }

  /** The entry of an identity is its last table, normalised. */
  lemma {:induction false} LastTableWins(packages: seq<Package>, keys: seq<Key>, i: nat)
    requires Table(packages, keys).Some? && i < |packages|
    requires forall j | i < j < |packages| :: packages[j].key != packages[i].key
    ensures var p := packages[i];
            && p.key in Table(packages, keys).value && ResolveAll(p.deps, keys).Some?
            && Table(packages, keys).value[p.key] == Normal(p.key, p.rest, ResolveAll(p.deps, keys).value)
    decreases |packages|
  {
    var front := packages[..|packages| - 1];
    if i < |front| {
      forall j | i < j < |front| ensures front[j].key != front[i].key {
        assert packages[j].key != packages[i].key;
      }
      LastTableWins(front, keys, i);
      assert packages[|packages| - 1].key != packages[i].key;
    }
  }

  // ---------------------------------------------------------------- changes

  ghost predicate Differs<K(!new), V>(a: map<K, V>, b: map<K, V>, k: K) {
    || (k in a && k !in b) || (k !in a && k in b)
    || (k in a && k in b && a[k] != b[k])
  }

  /** A key counts as changed exactly if it is in one of the maps only, or has two values. */
  lemma ChangedIff<K(!new), V>(a: map<K, V>, b: map<K, V>, k: K)
    ensures k in ChangedKeys(a, b) <==> Differs(a, b, k)
  {
  }

  lemma UnlistedKey(packages: seq<Package>, keys: seq<Key>, k: Key)
    requires Table(packages, keys).Some? && k !in multiset(KeysOf(packages))
    ensures k !in Table(packages, keys).value
  {
    if k in Table(packages, keys).value {
      TableKeyListed(packages, keys, k);
    }
  }

  /** An added table always counts as changed; so when a file only gains tables, exactly those do. */
  lemma AddedTablesChange(before: seq<Package>, after: seq<Package>, extra: multiset<Key>, k: Key)
    requires OnlyGains(before, after, extra)
    requires Table(before, KeysOf(before)).Some? && Table(after, KeysOf(after)).Some?
    ensures k in ChangedKeys(Table(before, KeysOf(before)).value, Table(after, KeysOf(after)).value) <==> k in extra
  {
    var was, now := Table(before, KeysOf(before)).value, Table(after, KeysOf(after)).value;
    if k in extra {
      assert multiset(KeysOf(after))[k] == multiset(KeysOf(before))[k] + extra[k];
      OccursOnce(KeysOf(after), k);
      assert k in multiset(KeysOf(after)) && k !in multiset(KeysOf(before));
      var i :| 0 <= i < |after| && KeysOf(after)[i] == k;
      assert after[i] in after;
      TableEntry(after, KeysOf(after), after[i]);
      UnlistedKey(before, KeysOf(before), k);
    } else if k in ChangedKeys(was, now) {
      OnlyAddedTablesChange(before, after, extra, k);
    }
  }
}
