/**
 The changed-path reader of the impact selector: NUL-separated name-status
 records, whose length depends on their status, and a list of untracked paths.
 */
module NameStatus {
  import opened Options
  import opened Text

  const NUL := '\0'

  /** One reported change; the similarity score is not part of it. */
  datatype Change = Change(status: char, before: string, after: string)

  /** A record as git prints it: a status, possibly with a score, and its paths. */
  datatype Record = Record(status: string, paths: seq<string>)

  // ---------------------------------------------------------------- well-formed records

  predicate Digit(c: char) {
    '0' <= c <= '9'
  }

  /** The similarity scores accepted: 100, a zero-padded three-digit one, or one or two digits. */
  predicate Score(s: string) {
    || s == "100"
    || (|s| == 3 && s[0] == '0' && Digit(s[1]) && Digit(s[2]))
    || (1 <= |s| <= 2 && forall c | c in s :: Digit(c))
  }

  predicate ValidStatus(s: string) {
    s != "" && if s[0] in "RC" then Score(s[1..]) else |s| == 1 && s[0] in "ADM"
  }

  /** Relative, non-empty, without NUL and without a parent component. */
  predicate ValidPath(path: string) {
    path != "" && NUL !in path && path[0] != '/' && ".." !in Split(path, '/')
  }

  function Count(status: string): nat
    requires status != ""
  {
    if status[0] in "RC" then 2 else 1
  }

  predicate WellFormed(r: Record) {
    && ValidStatus(r.status)
    && |r.paths| == Count(r.status)
    && forall p | p in r.paths :: ValidPath(p)
  }

  function ChangeOf(r: Record): Change
    requires WellFormed(r)
  {
    Change(r.status[0],
           if r.status[0] != 'A' then r.paths[0] else "",
           if r.status[0] != 'D' then r.paths[|r.paths| - 1] else "")
  }

  /** What each status letter says about the paths before and after. */
  lemma ChangeByStatus(r: Record)
    requires WellFormed(r)
    ensures var c := ChangeOf(r);
            && c.status == r.status[0] && c.status in "ADMRC"
            && (c.status == 'A' ==> c.before == "" && c.after == r.paths[0])
            && (c.status == 'D' ==> c.before == r.paths[0] && c.after == "")
            && (c.status == 'M' ==> c.before == r.paths[0] && c.after == r.paths[0])
            && (c.status in "RC" ==> c.before == r.paths[0] && c.after == r.paths[1])
  {
  }

  function DigitValue(c: char): nat
    requires Digit(c)
  {
    c as int - '0' as int
  }

  /** The number a sequence of digits denotes. */
  function Value(s: string): nat
    requires forall c | c in s :: Digit(c)
  {
    if s == "" then 0
    else
      assert s[|s| - 1] in s && Digit(s[|s| - 1]);
      10 * Value(s[..|s| - 1]) + DigitValue(s[|s| - 1])
  }

  lemma ValueOfThree(s: string)
    requires |s| == 3 && forall c | c in s :: Digit(c)
    ensures s[0] in s && s[1] in s && s[2] in s
    ensures Value(s) == 100 * DigitValue(s[0]) + 10 * DigitValue(s[1]) + DigitValue(s[2])
  {
    assert s[0] in s && s[1] in s && s[2] in s;
    assert s[..2][..1] == s[..1] && s[..1][..0] == "";
    assert Value("") == 0;
    assert Value(s[..1]) == DigitValue(s[0]);
    assert Value(s[..2]) == 10 * Value(s[..2][..1]) + DigitValue(s[1]);
  }

  lemma ValueOfShort(s: string)
    requires |s| <= 2 && forall c | c in s :: Digit(c)
    ensures Value(s) < 100
  {
    if |s| == 2 {
      assert s[0] in s && s[1] in s && s[..1][..0] == "" && Value("") == 0;
      assert Value(s[..1]) == DigitValue(s[0]);
    } else if |s| == 1 {
      assert s[0] in s && s[..0] == "";
    }
  }

  /** A similarity score is a percentage of one to three digits. */
  lemma ScoreIsPercentage(s: string)
    ensures Score(s) <==> 1 <= |s| <= 3 && (forall c | c in s :: Digit(c)) && Value(s) <= 100
  {
    if |s| == 3 {
      assert s[0] in s && s[1] in s && s[2] in s;
      assert s == [s[0], s[1], s[2]];
      if forall c | c in s :: Digit(c) {
        ValueOfThree(s);
      }
    } else if 1 <= |s| <= 2 && forall c | c in s :: Digit(c) {
      ValueOfShort(s);
    }
  }

  /** A status is a plain letter, or a rename or copy with a percentage. */
  lemma StatusForms(s: string)
    ensures ValidStatus(s) <==>
              || s == "A" || s == "D" || s == "M"
              || (s != "" && (s[0] == 'R' || s[0] == 'C') && 2 <= |s| <= 4
                  && (forall c | c in s[1..] :: Digit(c)) && Value(s[1..]) <= 100)
  {
    if s != "" {
      ScoreIsPercentage(s[1..]);
      assert |s| == 1 ==> s == [s[0]];
    }
  }

  lemma {:induction false} SplitJoined(a: string, b: string, d: char)
    ensures Split(a + [d] + b, d) == Split(a, d) + Split(b, d)
    decreases |a|
  {
    var s := a + [d] + b;
    if a == "" {
      assert s[1..] == b;
    } else {
      assert s[1..] == a[1..] + [d] + b;
      SplitJoined(a[1..], b, d);
    }
  }

  /** No path is accepted that is empty, absolute, holds a NUL, or has a parent component anywhere. */
  lemma RejectedPaths(a: string, b: string)
    ensures !ValidPath("") && !ValidPath("/" + a) && !ValidPath(a + [NUL] + b) && !ValidPath("..")
    ensures !ValidPath("../" + b) && !ValidPath(a + "/..") && !ValidPath(a + "/../" + b)
  {
    UnsplitWhole("..", '/');
    SplitJoined("..", b, '/');
    assert ".." + ['/'] + b == "../" + b;
    SplitJoined(a, "..", '/');
    assert a + ['/'] + ".." == a + "/..";
    SplitJoined(a, "../" + b, '/');
    assert a + ['/'] + ("../" + b) == a + "/../" + b;
    assert ("/" + a)[0] == '/' && NUL in a + [NUL] + b;
  }

  /** A relative path of ordinary components is accepted. */
  lemma AcceptedPaths(path: string)
    requires path != "" && path[0] != '/' && NUL !in path && forall c | c in Split(path, '/') :: c != ".."
    ensures ValidPath(path)
  {
  }

  // ---------------------------------------------------------------- printing

  ghost predicate AllWellFormed(rs: seq<Record>) {
    forall r | r in rs :: WellFormed(r)
  }

  function Fields(rs: seq<Record>): seq<string> {
    if rs == [] then [] else [rs[0].status] + rs[0].paths + Fields(rs[1..])
  }

  /** The stream git writes for these records. */
  function Print(rs: seq<Record>): string {
    Terminated(Fields(rs), NUL)
  }

  ghost function Changes(rs: seq<Record>): set<Change>
    requires AllWellFormed(rs)
  {
    set r | r in rs :: ChangeOf(r)
  }

  // ---------------------------------------------------------------- decoding fields

  /** The one way to read fields as records, if any. */
  ghost function Decode(fields: seq<string>): Option<seq<Record>> {
    if fields == [] then Some([])
    else if !ValidStatus(fields[0]) || |fields| < 1 + Count(fields[0]) then None
    else
      var n := 1 + Count(fields[0]);
      var r := Record(fields[0], fields[1..n]);
      var rest := Decode(fields[n..]);
      if !WellFormed(r) || rest.None? then None else Some([r] + rest.value)
  }

  /** `d` with records read earlier put in front. */
  ghost function After(rs: seq<Record>, d: Option<seq<Record>>): Option<seq<Record>> {
    if d.None? then None else Some(rs + d.value)
  }

  lemma DecodeStep(fields: seq<string>)
    requires fields != [] && ValidStatus(fields[0]) && 1 + Count(fields[0]) <= |fields|
    ensures var n := 1 + Count(fields[0]);
            var r := Record(fields[0], fields[1..n]);
            Decode(fields) == if WellFormed(r) then After([r], Decode(fields[n..])) else None
  {
  }

  /** A record in front of other fields is read first. */
  lemma DecodeOne(r: Record, tail: seq<string>)
    requires WellFormed(r)
    ensures Decode([r.status] + r.paths + tail) == After([r], Decode(tail))
  {
    var fs, n := [r.status] + r.paths + tail, 1 + Count(r.status);
    assert fs[1..n] == r.paths && fs[n..] == tail;
    DecodeStep(fs);
  }

  lemma AfterBoth(r: Record, rs: seq<Record>, d: Option<seq<Record>>)
    ensures After([r], After(rs, d)) == After([r] + rs, d)
  {
    assert d.Some? ==> [r] + (rs + d.value) == [r] + rs + d.value;
  }

  lemma {:induction false} DecodeFields(rs: seq<Record>, tail: seq<string>)
    requires AllWellFormed(rs)
    ensures Decode(Fields(rs) + tail) == After(rs, Decode(tail))
    decreases |rs|
  {
    if rs == [] {
      assert Fields(rs) + tail == tail;
      assert Decode(tail).Some? ==> rs + Decode(tail).value == Decode(tail).value;
    } else {
      var r, rest := rs[0], rs[1..];
      assert Fields(rs) + tail == [r.status] + r.paths + (Fields(rest) + tail);
      DecodeOne(r, Fields(rest) + tail);
      DecodeFields(rest, tail);
      AfterBoth(r, rest, Decode(tail));
      assert rs == [r] + rest;
    }
  }

  lemma {:induction false} DecodeIsSound(fields: seq<string>)
    requires Decode(fields).Some?
    ensures AllWellFormed(Decode(fields).value) && Fields(Decode(fields).value) == fields
    decreases |fields|
  {
    if fields != [] {
      var n := 1 + Count(fields[0]);
      var r, rest := Record(fields[0], fields[1..n]), fields[n..];
      DecodeIsSound(rest);
      assert Decode(fields).value[1..] == Decode(rest).value;
      assert fields == [r.status] + r.paths + rest;
    }
  }

  lemma {:induction false} FieldsHaveNoSeparator(rs: seq<Record>)
    requires AllWellFormed(rs)
    ensures forall f | f in Fields(rs) :: NUL !in f
    decreases |rs|
  {
    if rs != [] {
      assert rs[0] in rs;
      FieldsHaveNoSeparator(rs[1..]);
      StatusHasNoSeparator(rs[0].status);
    }
  }

  lemma StatusHasNoSeparator(s: string)
    requires ValidStatus(s)
    ensures NUL !in s
  {
    if s[0] in "RC" {
      assert s == [s[0]] + s[1..];
      assert NUL !in s[1..];
    }
  }

  // ---------------------------------------------------------------- the parser

  /** The cursor loop over the fields before the terminator. */
  method ParseFields(fields: seq<string>) returns (r: Option<set<Change>>)
    ensures r.Some? <==> Decode(fields).Some?
    ensures r.Some? ==> AllWellFormed(Decode(fields).value) && r.value == Changes(Decode(fields).value)
  {
    var changes: set<Change>, cursor := {}, 0;
    ghost var parsed: seq<Record> := [];
    assert fields[0..] == fields && (Decode(fields).Some? ==> [] + Decode(fields).value == Decode(fields).value);
    while cursor < |fields|
      invariant cursor <= |fields| && AllWellFormed(parsed)
      invariant Decode(fields) == After(parsed, Decode(fields[cursor..]))
      invariant changes == Changes(parsed)
    {
      var status, start := fields[cursor], cursor + 1;
      if !ValidStatus(status) {
        return None;
      }
      var count := Count(status);
      if start + count > |fields| {
        return None;
      }
      var record := Record(status, fields[start..start + count]);
      AtCursor(fields, cursor, record);
      if !WellFormed(record) {
        return None;
      }
      AfterOne(parsed, record, Decode(fields[start + count..]));
      changes := changes + {ChangeOf(record)};
      parsed, cursor := parsed + [record], start + count;
    }
    assert fields[cursor..] == [] && parsed + [] == parsed;
    return Some(changes);
  }

  lemma AtCursor(fields: seq<string>, cursor: nat, record: Record)
    requires cursor < |fields| && ValidStatus(fields[cursor]) && cursor + 1 + Count(fields[cursor]) <= |fields|
    requires record == Record(fields[cursor], fields[cursor + 1..cursor + 1 + Count(fields[cursor])])
    ensures Decode(fields[cursor..]) ==
              if WellFormed(record) then After([record], Decode(fields[cursor + 1 + Count(record.status)..])) else None
  {
    var tail, n := fields[cursor..], 1 + Count(fields[cursor]);
    DecodeStep(tail);
    assert tail[1..n] == record.paths && tail[n..] == fields[cursor + n..];
  }

  lemma AfterOne(rs: seq<Record>, r: Record, d: Option<seq<Record>>)
    requires AllWellFormed(rs) && WellFormed(r)
    ensures After(rs, After([r], d)) == After(rs + [r], d)
    ensures AllWellFormed(rs + [r]) && Changes(rs + [r]) == Changes(rs) + {ChangeOf(r)}
  {
    assert d.Some? ==> rs + ([r] + d.value) == rs + [r] + d.value;
    forall x | x in rs + [r] ensures WellFormed(x) {
    }
  }

  /** Untracked paths: empty fields are ignored, any other must be a valid path. */
  ghost predicate UntrackedOk(fields: seq<string>) {
    forall p | p in fields && p != "" :: ValidPath(p)
  }

  ghost function Added(fields: seq<string>): set<Change> {
    set p | p in fields && p != "" :: Change('A', "", p)
  }

  method AddUntracked(changes0: set<Change>, fields: seq<string>) returns (r: Option<set<Change>>)
    ensures r.Some? <==> UntrackedOk(fields)
    ensures r.Some? ==> r.value == changes0 + Added(fields)
  {
    var changes := changes0;
    for k := 0 to |fields|
      invariant UntrackedOk(fields[..k]) && changes == changes0 + Added(fields[..k])
    {
      assert fields[..k + 1] == fields[..k] + [fields[k]];
      if fields[k] != "" {
        if !ValidPath(fields[k]) {
          return None;
        }
        changes := changes + {Change('A', "", fields[k])};
      }
    }
    assert fields[..|fields|] == fields;
    return Some(changes);
  }

  /** The whole reader, over the two outputs of git. It accepts exactly a concatenation of
      well-formed records with valid untracked paths, and then yields exactly their changes. */
  method ChangedPaths(diff: string, untracked: string) returns (r: Option<set<Change>>)
    ensures r.Some? <==>
              (exists rs :: AllWellFormed(rs) && diff == Print(rs)) && UntrackedOk(Split(untracked, NUL))
    ensures r.Some? ==>
              forall rs | AllWellFormed(rs) && diff == Print(rs) ::
                r.value == Changes(rs) + Added(Split(untracked, NUL))
  {
    var fields := Split(diff, NUL);
    PrintedStreams(diff);
    if fields[|fields| - 1] != "" {
      return None;
    }
    var parsed := ParseFields(fields[..|fields| - 1]);
    if parsed.None? {
      return None;
    }
    r := AddUntracked(parsed.value, Split(untracked, NUL));
  }

  /** A stream is the print of well-formed records exactly when its fields end empty and decode. */
  lemma PrintedStreams(diff: string)
    ensures var fields := Split(diff, NUL);
            && (forall rs | AllWellFormed(rs) && diff == Print(rs) ::
                  fields[|fields| - 1] == "" && Decode(fields[..|fields| - 1]) == Some(rs))
            && (fields[|fields| - 1] == "" && Decode(fields[..|fields| - 1]).Some? ==>
                  var rs := Decode(fields[..|fields| - 1]).value;
                  AllWellFormed(rs) && diff == Print(rs))
  {
    var fields := Split(diff, NUL);
    var body := fields[..|fields| - 1];
    TerminatedSplit(diff, NUL);
    forall rs | AllWellFormed(rs) && diff == Print(rs)
      ensures fields[|fields| - 1] == "" && Decode(body) == Some(rs)
    {
      FieldsHaveNoSeparator(rs);
      SplitTerminated(Fields(rs), NUL);
      assert body == Fields(rs) + [];
      DecodeFields(rs, []);
      assert rs + [] == rs;
    }
    if Decode(body).Some? {
      DecodeIsSound(body);
    }
  }

  /** Reading back what was printed gives exactly the printed changes, whatever the paths look like. */
  lemma PrintThenRead(rs: seq<Record>)
    requires AllWellFormed(rs)
    ensures var fields := Split(Print(rs), NUL);
            fields[|fields| - 1] == "" && Decode(fields[..|fields| - 1]) == Some(rs)
  {
    PrintedStreams(Print(rs));
  }
}
