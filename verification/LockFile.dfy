/**
 Cargo.lock normalisation in the impact selector. A dependency reference names a
 package, and carries its version and source only when Cargo needed them to be
 unambiguous; entries are compared by what their references resolve to.
 */
module LockFile {
  import opened Options
  import opened Text

  /** The identity of a lock table; `source` is absent for path packages. */
  datatype Key = Key(name: string, version: string, source: Option<string>)

  /** A lock table: identity, raw references, and every other field as one text. */
  datatype Package = Package(key: Key, deps: seq<string>, rest: string)

  /** What a reference resolves to; an absent source reads as the empty text. */
  datatype Id = Id(name: string, version: string, source: string)

  /** A normalised entry. The sorted list of resolved references is kept as a multiset. */
  datatype Normal = Normal(key: Key, rest: string, deps: multiset<Id>)

  // ---------------------------------------------------------------- references

  /** Length of the part before the first space. */
  function Word(s: string): (n: nat)
    ensures n <= |s| && ' ' !in s[..n] && (n < |s| ==> s[n] == ' ')
  {
    if s == "" || s[0] == ' ' then 0
    else
      var n := 1 + Word(s[1..]);
      assert s[..n] == [s[0]] + s[1..][..n - 1];
      n
  }

  /** Python's `reference.split(' ', 2)`. */
  function Fields(reference: string): (r: seq<string>)
    ensures 1 <= |r| <= 3
  {
    var n := Word(reference);
    if n == |reference| then [reference]
    else
      var rest := reference[n + 1..];
      var m := Word(rest);
      if m == |rest| then [reference[..n], rest]
      else [reference[..n], rest[..m], rest[m + 1..]]
  }

  function Unwrapped(s: string): string {
    var s := if s != "" && s[0] == '(' then s[1..] else s;
    if s != "" && s[|s| - 1] == ')' then s[..|s| - 1] else s
  }

  /** Python's `source.rsplit('#', 1)[0]`. */
  function Fragmentless(s: string): string {
    if '#' !in s then s
    else if s[|s| - 1] == '#' then s[..|s| - 1]
    else Fragmentless(s[..|s| - 1])
  }

  predicate SourceMatches(source: Option<string>, reference: string) {
    || source == Some(reference)
    || (source.Some? && "git+" <= source.value && '#' !in reference && Fragmentless(source.value) == reference)
  }

  predicate Matches(k: Key, reference: string) {
    var f := Fields(reference);
    && k.name == f[0]
    && (|f| >= 2 ==> k.version == f[1])
    && (|f| >= 3 ==> SourceMatches(k.source, Unwrapped(f[2])))
  }

  function Matching(reference: string, keys: seq<Key>): seq<Key> {
    if keys == [] then []
    else (if Matches(keys[0], reference) then [keys[0]] else []) + Matching(reference, keys[1..])
  }

  function IdOf(k: Key): Id {
    Id(k.name, k.version, if k.source.Some? then k.source.value else "")
  }

  /** Exactly one table must match. */
  function Resolve(reference: string, keys: seq<Key>): Option<Id> {
    var m := Matching(reference, keys);
    if |m| == 1 then Some(IdOf(m[0])) else None
  }

  // ---------------------------------------------------------------- qualified references

  function WithVersion(k: Key): string {
    k.name + " " + k.version
  }

  function WithSource(k: Key, source: string): string {
    k.name + " " + k.version + " (" + source + ")"
  }

  lemma {:induction false} WordOf(w: string, rest: string)
    requires ' ' !in w
    ensures Word(w + " " + rest) == |w| && Word(w) == |w|
    decreases |w|
  {
    var s := w + " " + rest;
    if w != "" {
      assert s[1..] == w[1..] + " " + rest;
      WordOf(w[1..], rest);
    }
  }

  lemma FieldsOfBare(name: string)
    requires ' ' !in name
    ensures Fields(name) == [name]
  {
    WordOf(name, "");
  }

  lemma Cut(w: string, rest: string)
    ensures (w + " " + rest)[..|w|] == w && (w + " " + rest)[|w| + 1..] == rest
  {
  }

  lemma FieldsOfVersion(k: Key)
    requires ' ' !in k.name && ' ' !in k.version
    ensures Fields(WithVersion(k)) == [k.name, k.version]
  {
    WordOf(k.name, k.version);
    WordOf(k.version, "");
    Cut(k.name, k.version);
  }

  lemma FieldsOfSource(k: Key, source: string)
    requires ' ' !in k.name && ' ' !in k.version
    ensures Fields(WithSource(k, source)) == [k.name, k.version, "(" + source + ")"]
  {
    var tail := "(" + source + ")";
    var rest := k.version + " " + tail;
    assert WithSource(k, source) == k.name + " " + rest;
    WordOf(k.name, rest);
    WordOf(k.version, tail);
    Cut(k.name, rest);
    Cut(k.version, tail);
  }

  lemma UnwrappedSource(source: string)
    ensures Unwrapped("(" + source + ")") == source
  {
    assert ("(" + source + ")")[1..] == source + ")";
  }

  /** A source qualifier accepted for `k`: its source, or a git source without the commit fragment. */
  predicate SourceQualifier(k: Key, source: string) {
    SourceMatches(k.source, source)
  }

  // ---------------------------------------------------------------- resolution is a filter

  lemma {:induction false} MatchingCounts(reference: string, keys: seq<Key>, k: Key)
    ensures multiset(Matching(reference, keys))[k] == if Matches(k, reference) then multiset(keys)[k] else 0
    decreases |keys|
  {
    if keys != [] {
      MatchingCounts(reference, keys[1..], k);
      assert keys == [keys[0]] + keys[1..];
    }
  }

  /** A narrower reference that still matches `k` resolves to it too, in any list of tables that
      contains the old ones and only non-matching new ones, in any order. */
  lemma Narrow(reference: string, keys: seq<Key>, reference': string, keys': seq<Key>, extra: multiset<Key>, k: Key)
    requires Matching(reference, keys) == [k]
    requires multiset(keys') == multiset(keys) + extra
    requires Matches(k, reference')
    requires forall q | q in keys && Matches(q, reference') :: Matches(q, reference)
    requires forall q | q in extra :: !Matches(q, reference')
    ensures Matching(reference', keys') == [k]
  {
    var m := Matching(reference', keys');
    forall q ensures multiset(m)[q] == multiset([k])[q] {
      MatchingCounts(reference', keys', q);
      MatchingCounts(reference, keys, q);
      assert multiset(keys')[q] == multiset(keys)[q] + extra[q];
      assert q in keys <==> q in multiset(keys);
    }
    assert multiset(m) == multiset([k]);
    assert |m| == |multiset(m)| == 1;
    assert m[0] in multiset(m);
  }

  /** A reference that resolves to `k`, re-qualified with k's own version or version and source. */
  ghost predicate Requalifies(reference: string, reference': string, k: Key) {
    || reference' == reference
    || (reference == k.name && reference' == WithVersion(k))
    || (reference in {k.name, WithVersion(k)}
        && exists source :: SourceQualifier(k, source) && reference' == WithSource(k, source))
  }

  lemma NameIsWord(reference: string, keys: seq<Key>, k: Key)
    requires Matching(reference, keys) == [k]
    ensures ' ' !in k.name && Matches(k, reference)
  {
    MatchingCounts(reference, keys, k);
    assert k in multiset(Matching(reference, keys));
  }

  /** Adding the resolved package's own version or source keeps the resolution, even when other
      tables, of which none fits the qualified reference, have been added. */
  lemma RequalifiedResolves(reference: string, keys: seq<Key>, reference': string, keys': seq<Key>,
                            extra: multiset<Key>, k: Key)
    requires Matching(reference, keys) == [k] && Requalifies(reference, reference', k)
    requires ' ' !in k.version
    requires multiset(keys') == multiset(keys) + extra && forall q | q in extra :: !Matches(q, reference')
    ensures Matching(reference', keys') == [k] && Resolve(reference', keys') == Resolve(reference, keys)
  {
    NameIsWord(reference, keys, k);
    FieldsOfBare(k.name);
    FieldsOfVersion(k);
    if reference' != reference && reference' != WithVersion(k) {
      var source :| SourceQualifier(k, source) && reference' == WithSource(k, source);
      FieldsOfSource(k, source);
      UnwrappedSource(source);
    }
    Narrow(reference, keys, reference', keys', extra, k);
  }

  lemma Unmatched(reference: string, keys: seq<Key>, k: Key)
    requires !Matches(k, reference)
    ensures Matching(reference, keys) != [k]
  {
    MatchingCounts(reference, keys, k);
    assert multiset([k])[k] == 1;
  }

  /** The version qualifier works exactly for versions that are one word. */
  lemma VersionQualifierIff(keys: seq<Key>, k: Key)
    requires Matching(k.name, keys) == [k]
    ensures Matching(WithVersion(k), keys) == [k] <==> ' ' !in k.version
  {
    NameIsWord(k.name, keys, k);
    if ' ' !in k.version {
      assert multiset(keys) == multiset(keys) + multiset{};
      RequalifiedResolves(k.name, keys, WithVersion(k), keys, multiset{}, k);
    } else {
      WordOf(k.name, k.version);
      Cut(k.name, k.version);
      assert !Matches(k, WithVersion(k));
      Unmatched(WithVersion(k), keys, k);
    }
  }

  /** Dropping the fragment of a git source works exactly when that leaves no other '#'. */
  lemma FragmentlessQualifierIff(keys: seq<Key>, k: Key, source: string)
    requires Matching(WithVersion(k), keys) == [k] && ' ' !in k.version
    requires k.source == Some(source) && "git+" <= source && '#' in source
    ensures Matching(WithSource(k, Fragmentless(source)), keys) == [k] <==> '#' !in Fragmentless(source)
  {
    var reference := WithSource(k, Fragmentless(source));
    NameIsWord(WithVersion(k), keys, k);
    assert multiset(keys) == multiset(keys) + multiset{};
    Shorter(source);
    if '#' !in Fragmentless(source) {
      assert SourceQualifier(k, Fragmentless(source));
      RequalifiedResolves(WithVersion(k), keys, reference, keys, multiset{}, k);
    } else {
      FieldsOfSource(k, Fragmentless(source));
      UnwrappedSource(Fragmentless(source));
      assert !Matches(k, reference);
      Unmatched(reference, keys, k);
    }
  }

  lemma {:induction false} Shorter(s: string)
    requires '#' in s
    ensures |Fragmentless(s)| < |s|
    decreases |s|
  {
    if s[|s| - 1] != '#' {
      var t := s[..|s| - 1];
      assert s == t + [s[|s| - 1]];
      Shorter(t);
    }
  }

  // ---------------------------------------------------------------- entries

  function KeysOf(packages: seq<Package>): seq<Key> {
    seq(|packages|, i requires 0 <= i < |packages| => packages[i].key)
  }

  /** The resolved references of one table, or nothing if one of them is ambiguous or unknown. */
  function ResolveAll(deps: seq<string>, keys: seq<Key>): Option<multiset<Id>> {
    if deps == [] then Some(multiset{})
    else
      var last, front := Resolve(deps[|deps| - 1], keys), ResolveAll(deps[..|deps| - 1], keys);
      if last.None? || front.None? then None else Some(front.value + multiset{last.value})
  }

  /** A later table with the same identity replaces an earlier one, as in a dictionary. */
  function Table(packages: seq<Package>, keys: seq<Key>): Option<map<Key, Normal>> {
    if packages == [] then Some(map[])
    else
      var p := packages[|packages| - 1];
      var deps, front := ResolveAll(p.deps, keys), Table(packages[..|packages| - 1], keys);
      if deps.None? || front.None? then None
      else Some(front.value[p.key := Normal(p.key, p.rest, deps.value)])
  }

  method NormalizeDeps(deps: seq<string>, keys: seq<Key>) returns (r: Option<multiset<Id>>)
    ensures r == ResolveAll(deps, keys)
  {
    var ids: multiset<Id> := multiset{};
    for i := 0 to |deps|
      invariant ResolveAll(deps[..i], keys) == Some(ids)
    {
      var id := Resolve(deps[i], keys);
      assert deps[..i + 1][..i] == deps[..i];
      if id.None? {
        FailsFrom(deps, keys, i + 1);
        return None;
      }
      ids := ids + multiset{id.value};
    }
    assert deps[..|deps|] == deps;
    return Some(ids);
  }

  lemma {:induction false} FailsFrom(deps: seq<string>, keys: seq<Key>, i: nat)
    requires i <= |deps| && ResolveAll(deps[..i], keys).None?
    ensures ResolveAll(deps, keys).None?
    decreases |deps|
  {
    if i < |deps| {
      assert deps[..|deps| - 1][..i] == deps[..i];
      FailsFrom(deps[..|deps| - 1], keys, i);
    } else {
      assert deps[..i] == deps;
    }
  }

  /** `lock_entries`: the normalised table of a lock file, or a rejection. */
  method LockEntries(packages: seq<Package>) returns (r: Option<map<Key, Normal>>)
    ensures r == Table(packages, KeysOf(packages))
  {
    var keys := KeysOf(packages);
    var entries: map<Key, Normal> := map[];
    for i := 0 to |packages|
      invariant Table(packages[..i], keys) == Some(entries)
    {
      var p := packages[i];
      var deps := NormalizeDeps(p.deps, keys);
      assert packages[..i + 1][..i] == packages[..i];
      if deps.None? {
        TableFailsFrom(packages, keys, i + 1);
        return None;
      }
      entries := entries[p.key := Normal(p.key, p.rest, deps.value)];
    }
    assert packages[..|packages|] == packages;
    return Some(entries);
  }

  lemma {:induction false} TableFailsFrom(packages: seq<Package>, keys: seq<Key>, i: nat)
    requires i <= |packages| && Table(packages[..i], keys).None?
    ensures Table(packages, keys).None?
    decreases |packages|
  {
    if i < |packages| {
      assert packages[..|packages| - 1][..i] == packages[..i];
      TableFailsFrom(packages[..|packages| - 1], keys, i);
    } else {
      assert packages[..i] == packages;
    }
  }

  // ---------------------------------------------------------------- serialisation does not matter

  ghost predicate DistinctKeys(keys: seq<Key>) {
    forall i, j | 0 <= i < j < |keys| :: keys[i] != keys[j]
  }

  ghost predicate Distinct(packages: seq<Package>) {
    DistinctKeys(KeysOf(packages))
  }

  lemma DistinctFront(packages: seq<Package>)
    requires packages != [] && Distinct(packages)
    ensures var front := packages[..|packages| - 1];
            Distinct(front) && forall p | p in front :: p.key != packages[|packages| - 1].key
  {
    var front, keys := packages[..|packages| - 1], KeysOf(packages);
    assert KeysOf(front) == keys[..|front|];
    forall p | p in front ensures p.key != packages[|front|].key {
      var i :| 0 <= i < |front| && front[i] == p;
      assert keys[i] != keys[|front|];
    }
  }

  /** With distinct identities the table is read off the packages. */
  lemma {:induction false} TableEntry(packages: seq<Package>, keys: seq<Key>, p: Package)
    requires Distinct(packages) && Table(packages, keys).Some? && p in packages
    ensures p.key in Table(packages, keys).value && ResolveAll(p.deps, keys).Some?
    ensures Table(packages, keys).value[p.key] == Normal(p.key, p.rest, ResolveAll(p.deps, keys).value)
    decreases |packages|
  {
    var front := packages[..|packages| - 1];
    DistinctFront(packages);
    if p != packages[|packages| - 1] {
      assert p in front;
      TableEntry(front, keys, p);
    }
  }

  /** The reference still names the table it resolved to, with that table's own qualifiers. */
  ghost predicate Requalified(reference: string, reference': string, keys: seq<Key>) {
    exists k :: Matching(reference, keys) == [k] && Requalifies(reference, reference', k)
  }

  /** `p'` is the table `p` with references only re-qualified. */
  ghost predicate SameButQualified(p: Package, p': Package, keys: seq<Key>) {
    && p'.key == p.key && p'.rest == p.rest && |p'.deps| == |p.deps|
    && (forall i | 0 <= i < |p.deps| :: Requalified(p.deps[i], p'.deps[i], keys))
  }

  lemma {:induction false} OccursOnce(keys: seq<Key>, k: Key)
    requires DistinctKeys(keys)
    ensures multiset(keys)[k] <= 1
    decreases |keys|
  {
    if keys != [] {
      var front := keys[..|keys| - 1];
      assert keys == front + [keys[|keys| - 1]];
      OccursOnce(front, k);
      assert k == keys[|keys| - 1] ==> k !in front;
      assert k in front <==> k in multiset(front);
    }
  }

  /** A reference that resolves among distinct tables leaves no room for a second one that fits. */
  lemma NoOtherFits(reference: string, keys: seq<Key>, keys': seq<Key>, extra: multiset<Key>, k: Key, q: Key)
    requires multiset(keys') == multiset(keys) + extra && DistinctKeys(keys')
    requires Resolve(reference, keys').Some? && k in keys && Matches(k, reference) && q in extra
    ensures !Matches(q, reference)
  {
    var m := Matching(reference, keys');
    MatchingCounts(reference, keys', k);
    MatchingCounts(reference, keys', q);
    OccursOnce(keys', k);
    assert multiset(keys')[q] == multiset(keys)[q] + extra[q] && k in multiset(keys);
    assert multiset(keys')[k] == multiset(keys)[k] + extra[k];
    assert m == [m[0]] && multiset(m)[q] == multiset{m[0]}[q] && multiset(m)[k] == multiset{m[0]}[k];
  }

  /** A re-qualified reference keeps its resolution in any file in which it resolves at all. */
  lemma RequalifiedDep(d: string, keys: seq<Key>, d': string, keys': seq<Key>, extra: multiset<Key>)
    requires multiset(keys') == multiset(keys) + extra && DistinctKeys(keys') && Requalified(d, d', keys)
    requires (forall k | k in keys :: ' ' !in k.version) && Resolve(d', keys').Some?
    ensures Resolve(d', keys') == Resolve(d, keys)
  {
    var k :| Matching(d, keys) == [k] && Requalifies(d, d', k);
    MatchingCounts(d, keys, k);
    assert k in multiset(Matching(d, keys)) && k in multiset(keys);
    QualifiedMatches(d, keys, d', k);
    forall q | q in extra ensures !Matches(q, d') {
      NoOtherFits(d', keys, keys', extra, k, q);
    }
    RequalifiedResolves(d, keys, d', keys', extra, k);
  }

  lemma QualifiedMatches(reference: string, keys: seq<Key>, reference': string, k: Key)
    requires Matching(reference, keys) == [k] && Requalifies(reference, reference', k) && ' ' !in k.version
    ensures Matches(k, reference')
  {
    assert multiset(keys) == multiset(keys) + multiset{};
    RequalifiedResolves(reference, keys, reference', keys, multiset{}, k);
    NameIsWord(reference', keys, k);
  }

  lemma {:induction false} RequalifiedDeps(deps: seq<string>, keys: seq<Key>, deps': seq<string>, keys': seq<Key>,
                                           extra: multiset<Key>)
    requires |deps'| == |deps| && multiset(keys') == multiset(keys) + extra && DistinctKeys(keys')
    requires (forall k | k in keys :: ' ' !in k.version) && ResolveAll(deps', keys').Some?
    requires forall i | 0 <= i < |deps| :: Requalified(deps[i], deps'[i], keys)
    ensures ResolveAll(deps', keys') == ResolveAll(deps, keys)
    decreases |deps|
  {
    if deps != [] {
      var n := |deps| - 1;
      RequalifiedDeps(deps[..n], keys, deps'[..n], keys', extra);
      RequalifiedDep(deps[n], keys, deps'[n], keys', extra);
    }
  }

  lemma EntryUnchanged(before: seq<Package>, after: seq<Package>, extra: multiset<Key>, p: Package, p': Package)
    requires Distinct(before) && Distinct(after) && p in before && p' in after
    requires multiset(KeysOf(after)) == multiset(KeysOf(before)) + extra
    requires forall k | k in KeysOf(before) :: ' ' !in k.version
    requires Table(before, KeysOf(before)).Some? && Table(after, KeysOf(after)).Some?
    requires SameButQualified(p, p', KeysOf(before))
    ensures p.key in Table(before, KeysOf(before)).value && p.key in Table(after, KeysOf(after)).value
    ensures Table(before, KeysOf(before)).value[p.key] == Table(after, KeysOf(after)).value[p.key]
  {
    TableEntry(before, KeysOf(before), p);
    TableEntry(after, KeysOf(after), p');
    RequalifiedDeps(p.deps, KeysOf(before), p'.deps, KeysOf(after), extra);
  }

  lemma {:induction false} TableKeys(packages: seq<Package>, keys: seq<Key>, k: Key)
    requires Table(packages, keys).Some? && k in Table(packages, keys).value
    ensures exists p :: p in packages && p.key == k
    decreases |packages|
  {
    var front, last := packages[..|packages| - 1], packages[|packages| - 1];
    if k != last.key {
      TableKeys(front, keys, k);
      var p :| p in front && p.key == k;
      assert p in packages;
    } else {
      assert last in packages;
    }
  }

  /** Keys whose entry was added, removed or altered. */
  function ChangedKeys<K, V(==)>(a: map<K, V>, b: map<K, V>): set<K> {
    set k | k in a.Keys + b.Keys && !(k in a && k in b && a[k] == b[k])
  }

  /** `after` is `before` with references re-qualified, plus tables of the identities `extra`. */
  ghost predicate OnlyGains(before: seq<Package>, after: seq<Package>, extra: multiset<Key>) {
    && Distinct(before) && Distinct(after)
    && multiset(KeysOf(after)) == multiset(KeysOf(before)) + extra
    && (forall k | k in KeysOf(before) :: ' ' !in k.version)
    && (forall p | p in before :: exists p' :: p' in after && SameButQualified(p, p', KeysOf(before)))
  }

  lemma OldKeyUnchanged(before: seq<Package>, after: seq<Package>, extra: multiset<Key>, k: Key)
    requires OnlyGains(before, after, extra) && k in KeysOf(before)
    requires Table(before, KeysOf(before)).Some? && Table(after, KeysOf(after)).Some?
    ensures k !in ChangedKeys(Table(before, KeysOf(before)).value, Table(after, KeysOf(after)).value)
  {
    var i :| 0 <= i < |before| && before[i].key == k;
    var p := before[i];
    assert p in before;
    var p' :| p' in after && SameButQualified(p, p', KeysOf(before));
    EntryUnchanged(before, after, extra, p, p');
  }

  lemma TableKeyListed(packages: seq<Package>, keys: seq<Key>, k: Key)
    requires Table(packages, keys).Some? && k in Table(packages, keys).value
    ensures k in KeysOf(packages)
  {
    TableKeys(packages, keys, k);
    var p :| p in packages && p.key == k;
    KeyListed(packages, p);
  }

  /** When a lock file only gains tables and re-qualifies references, and both files normalise, every
      table it already had normalises to the same value: the changed keys are among the added ones. */
  lemma OnlyAddedTablesChange(before: seq<Package>, after: seq<Package>, extra: multiset<Key>, k: Key)
    requires OnlyGains(before, after, extra)
    requires Table(before, KeysOf(before)).Some? && Table(after, KeysOf(after)).Some?
    requires k in ChangedKeys(Table(before, KeysOf(before)).value, Table(after, KeysOf(after)).value)
    ensures k in extra
  {
    if k in Table(before, KeysOf(before)).value {
      TableKeyListed(before, KeysOf(before), k);
      OldKeyUnchanged(before, after, extra, k);
    } else {
      TableKeyListed(after, KeysOf(after), k);
      assert k in multiset(KeysOf(after));
      if k in KeysOf(before) {
        OldKeyUnchanged(before, after, extra, k);
      }
    }
  }

  lemma KeyListed(packages: seq<Package>, p: Package)
    requires p in packages
    ensures p.key in KeysOf(packages)
  {
    var i :| 0 <= i < |packages| && packages[i] == p;
    assert KeysOf(packages)[i] == p.key;
  }
}
