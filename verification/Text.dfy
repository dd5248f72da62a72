/** String operations shared by the selector's parsers. */
module Text {

  /** Python's `s.split(d)` for a one-character separator: never empty. */
  function Split(s: string, d: char): (r: seq<string>)
    ensures |r| > 0
  {
    if s == "" then [""]
    else
      var rest := Split(s[1..], d);
      if s[0] == d then [""] + rest else [[s[0]] + rest[0]] + rest[1..]
  }

  /** Each field followed by one separator. */
  function Terminated(fields: seq<string>, d: char): string {
    if fields == [] then "" else fields[0] + [d] + Terminated(fields[1..], d)
  }

  lemma {:induction false} SplitField(f: string, rest: string, d: char)
    requires d !in f
    ensures Split(f + [d] + rest, d) == [f] + Split(rest, d)
    decreases |f|
  {
    var s := f + [d] + rest;
    if f == "" {
      assert s[1..] == rest;
    } else {
      assert s[1..] == f[1..] + [d] + rest;
      SplitField(f[1..], rest, d);
      assert [f[0]] + f[1..] == f;
    }
  }

  lemma {:induction false} UnsplitWhole(s: string, d: char)
    requires d !in s
    ensures Split(s, d) == [s]
    decreases |s|
  {
    if s != "" {
      UnsplitWhole(s[1..], d);
      assert [s[0]] + s[1..] == s;
    }
  }

  /** Splitting undoes terminating. */
  lemma {:induction false} SplitTerminated(fields: seq<string>, d: char)
    requires forall f | f in fields :: d !in f
    ensures Split(Terminated(fields, d), d) == fields + [""]
    decreases |fields|
  {
    if fields != [] {
      SplitField(fields[0], Terminated(fields[1..], d), d);
      SplitTerminated(fields[1..], d);
      assert fields == [fields[0]] + fields[1..];
    }
  }

  /** All fields but the last, terminated, and then the last. */
  function Rejoined(r: seq<string>, d: char): string
    requires r != []
  {
    if |r| == 1 then r[0] else r[0] + [d] + Rejoined(r[1..], d)
  }

  lemma {:induction false} RejoinedIsTerminated(r: seq<string>, d: char)
    requires r != []
    ensures Rejoined(r, d) == Terminated(r[..|r| - 1], d) + r[|r| - 1]
    decreases |r|
  {
    if |r| > 1 {
      assert r[..|r| - 1][1..] == r[1..][..|r| - 2];
      RejoinedIsTerminated(r[1..], d);
    }
  }

  lemma {:induction false} RejoinedSplit(s: string, d: char)
    ensures Rejoined(Split(s, d), d) == s && forall f | f in Split(s, d) :: d !in f
    decreases |s|
  {
    if s != "" {
      var t := Split(s[1..], d);
      RejoinedSplit(s[1..], d);
      assert s == [s[0]] + s[1..];
      if s[0] == d {
        assert Split(s, d)[1..] == t;
      } else {
        assert Split(s, d)[0] == [s[0]] + t[0] && Split(s, d)[1..] == t[1..];
      }
    }
  }

  /** Terminating undoes splitting, up to the unterminated last field. */
  lemma TerminatedSplit(s: string, d: char)
    ensures var r := Split(s, d);
            Terminated(r[..|r| - 1], d) + r[|r| - 1] == s && forall f | f in r :: d !in f
  {
    RejoinedSplit(s, d);
    RejoinedIsTerminated(Split(s, d), d);
  }
}
