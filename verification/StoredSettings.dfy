/** Loading stored settings over the file configuration: rows that spoil the merge are dropped,
    round by round, and the outcome is remembered per row set. */
module StoredSettings {

  // A stored row. A row set keeps its order, which only the order of warnings depends on.
  datatype Row = Row(key: string, value: string)

  datatype Reason = UnknownKey | Undecodable(detail: string) | Rejected | Unattributed

  datatype Warning = Warning(key: string, reason: Reason)

  datatype Verdict<C> = Valid(config: C) | Invalid(paths: set<string>)

  // The parts of the configuration code that the merge relies on. `overlay` and `undecodable` look
  // rows up by key, so they see the rows as a table.
  datatype Rules<!C> = Rules(
    known: C -> set<string>,
    overlay: (C, map<string, string>) -> C,
    undecodable: (C, map<string, string>) -> seq<Warning>,
    validate: C -> Verdict<C>)

  // A file configuration that passes validation, and is left as it is when there are no rows.
  ghost predicate GoodFile<C(!new)>(m: Rules<C>, file: C) {
    m.validate(file) == Valid(file) && m.overlay(file, map[]) == file && m.undecodable(file, map[]) == []
  }

  ghost predicate Validated<C(!new)>(m: Rules<C>, c: C) {
    exists input :: m.validate(input) == Valid(c)
  }

  predicate UniqueKeys(rows: seq<Row>) {
    forall i, j | 0 <= i < j < |rows| :: rows[i].key != rows[j].key
  }

  function Table(rows: seq<Row>): map<string, string> {
    if rows == [] then map[] else Table(rows[..|rows| - 1])[rows[|rows| - 1].key := rows[|rows| - 1].value]
  }

  // ----- blame

  // The path is the key, or a parent of it.
  predicate Names(path: string, key: string) {
    key == path || path + "." <= key
  }

  predicate Blamed(paths: set<string>, key: string) {
    exists p | p in paths :: Names(p, key)
  }

  function Offending(rows: seq<Row>, paths: set<string>): (offending: seq<Row>)
    ensures forall r :: r in offending <==> r in rows && Blamed(paths, r.key)
  {
    if rows == [] then []
    else (if Blamed(paths, rows[0].key) then [rows[0]] else []) + Offending(rows[1..], paths)
  }

  function Kept(rows: seq<Row>, paths: set<string>): (kept: seq<Row>)
    ensures forall r :: r in kept <==> r in rows && !Blamed(paths, r.key)
    ensures |kept| <= |rows|
  {
    if rows == [] then []
    else (if Blamed(paths, rows[0].key) then [] else [rows[0]]) + Kept(rows[1..], paths)
  }

  lemma {:induction false} KeptAndOffending(rows: seq<Row>, paths: set<string>)
    ensures |Kept(rows, paths)| + |Offending(rows, paths)| == |rows|
    ensures multiset(Kept(rows, paths)) + multiset(Offending(rows, paths)) == multiset(rows)
  {
    if rows != [] {
      KeptAndOffending(rows[1..], paths);
      assert rows == [rows[0]] + rows[1..];
    }
  }

  function Warned(rows: seq<Row>, reason: Reason): seq<Warning> {
    seq(|rows|, i requires 0 <= i < |rows| => Warning(rows[i].key, reason))
  }

  function UnknownRows(rows: seq<Row>, known: set<string>): (unknown: seq<Row>)
    ensures forall r :: r in unknown <==> r in rows && r.key !in known
  {
    if rows == [] then []
    else (if rows[0].key in known then [] else [rows[0]]) + UnknownRows(rows[1..], known)
  }

  // ----- the merge

  datatype Merged<C> = Merged(config: C, warnings: seq<Warning>)

  // The rounds from one candidate row set on.
  function Rounds<C>(m: Rules<C>, file: C, candidate: seq<Row>): Merged<C>
    decreases |candidate|
  {
    var merged := m.overlay(file, Table(candidate));
    var undecodable := m.undecodable(file, Table(candidate));
    match m.validate(merged)
    case Valid(config) => Merged(config, undecodable)
    case Invalid(paths) =>
      var offending := Offending(candidate, paths);
      if offending == [] then Merged(file, undecodable + [Warning("*", Unattributed)])
      else
        KeptAndOffending(candidate, paths);
        var rest := Rounds(m, file, Kept(candidate, paths));
        Merged(rest.config, undecodable + Warned(offending, Rejected) + rest.warnings)
  }

  function Merge<C>(m: Rules<C>, file: C, rows: seq<Row>): Merged<C> {
    var rounds := Rounds(m, file, rows);
    Merged(rounds.config, Warned(UnknownRows(rows, m.known(file)), UnknownKey) + rounds.warnings)
  }

  function Then<C>(warnings: seq<Warning>, rest: Merged<C>): Merged<C> {
    Merged(rest.config, warnings + rest.warnings)
  }

  function VerdictOn<C>(m: Rules<C>, file: C, candidate: seq<Row>): Verdict<C> {
    m.validate(m.overlay(file, Table(candidate)))
  }

  lemma LastRound<C>(m: Rules<C>, file: C, candidate: seq<Row>, warnings: seq<Warning>)
    requires VerdictOn(m, file, candidate).Valid? || Offending(candidate, VerdictOn(m, file, candidate).paths) == []
    ensures var seen := warnings + m.undecodable(file, Table(candidate));
            Then(warnings, Rounds(m, file, candidate)) ==
            (if VerdictOn(m, file, candidate).Valid? then Merged(VerdictOn(m, file, candidate).config, seen)
             else Merged(file, seen + [Warning("*", Unattributed)]))
  {
    var undecodable := m.undecodable(file, Table(candidate));
    assert warnings + (undecodable + [Warning("*", Unattributed)]) == warnings + undecodable + [Warning("*", Unattributed)];
  }

  lemma FailedRound<C>(m: Rules<C>, file: C, candidate: seq<Row>, warnings: seq<Warning>, paths: set<string>)
    requires VerdictOn(m, file, candidate) == Invalid(paths) && Offending(candidate, paths) != []
    ensures |Kept(candidate, paths)| < |candidate|
    ensures Then(warnings, Rounds(m, file, candidate))
         == Then(warnings + m.undecodable(file, Table(candidate)) + Warned(Offending(candidate, paths), Rejected),
                 Rounds(m, file, Kept(candidate, paths)))
  {
    KeptAndOffending(candidate, paths);
    var undecodable, rejected := m.undecodable(file, Table(candidate)), Warned(Offending(candidate, paths), Rejected);
    var rest := Rounds(m, file, Kept(candidate, paths)).warnings;
    assert warnings + (undecodable + rejected + rest) == warnings + undecodable + rejected + rest;
  }

  /** The pruning loop. With a valid file configuration a failed round always drops a row it can
      name or ends the loop, so the loop never runs out of rounds. */
  method MergeStoredRows<C(!new)>(m: Rules<C>, file: C, rows: seq<Row>)
    returns (config: C, warnings: seq<Warning>, ranOut: bool, rounds: nat)
    requires GoodFile(m, file)
    ensures Merged(config, warnings) == Merge(m, file, rows)
    ensures !ranOut && rounds <= |rows| + 1
    ensures Validated(m, config)
  {
    warnings := Warned(UnknownRows(rows, m.known(file)), UnknownKey);
    var candidate := rows;
    config := file;
    var decided := false;
    rounds := 0;
    while rounds <= |rows| && !decided
      invariant !decided ==> rounds + |candidate| <= |rows|
      invariant rounds <= |rows| + 1
      invariant Validated(m, config)
      invariant !decided ==> config == file
      invariant decided ==> Merged(config, warnings) == Merge(m, file, rows)
      invariant !decided ==> Merge(m, file, rows) == Then(warnings, Rounds(m, file, candidate))
      decreases |rows| + 1 - rounds, !decided
    {
      var merged := m.overlay(file, Table(candidate));
      ghost var before := warnings;
      warnings := warnings + m.undecodable(file, Table(candidate));
      match m.validate(merged) {
        case Valid(accepted) =>
          LastRound(m, file, candidate, before);
          config, decided := accepted, true;
        case Invalid(paths) =>
          var offending := Offending(candidate, paths);
          if offending == [] {
            LastRound(m, file, candidate, before);
            warnings, decided := warnings + [Warning("*", Unattributed)], true;
          } else {
            FailedRound(m, file, candidate, before, paths);
            warnings := warnings + Warned(offending, Rejected);
            candidate := Kept(candidate, paths);
          }
      }
      rounds := rounds + 1;
    }
    ranOut := !decided;
  }

  // ----- which rows are dropped

  // The rows still standing when the rounds end.
  function Standing<C>(m: Rules<C>, file: C, candidate: seq<Row>): seq<Row>
    decreases |candidate|
  {
    var verdict := VerdictOn(m, file, candidate);
    if verdict.Valid? || Offending(candidate, verdict.paths) == [] then candidate
    else
      KeptAndOffending(candidate, verdict.paths);
      Standing(m, file, Kept(candidate, verdict.paths))
  }

  // Undecodable rows are reported as such, and as nothing else.
  ghost predicate ReportsUndecodable<C(!new)>(m: Rules<C>) {
    forall c, table :: forall w | w in m.undecodable(c, table) :: w.reason.Undecodable?
  }

  // The loaded configuration is the standing rows laid over the file, or the file itself when no row
  // can be blamed; and the rows reported as rejected are exactly the ones that no longer stand.
  lemma {:induction false} OutcomeOfTheRounds<C(!new)>(m: Rules<C>, file: C, candidate: seq<Row>, r: Row)
    requires ReportsUndecodable(m) && UniqueKeys(candidate) && r in candidate
    ensures var verdict := VerdictOn(m, file, Standing(m, file, candidate));
            Rounds(m, file, candidate).config == (if verdict.Valid? then verdict.config else file)
    ensures Warning(r.key, Rejected) in Rounds(m, file, candidate).warnings <==> r !in Standing(m, file, candidate)
    ensures Standing(m, file, candidate) == candidate <==> VerdictOn(m, file, candidate).Valid? || Offending(candidate, VerdictOn(m, file, candidate).paths) == []
    decreases |candidate|
  {
    var verdict := VerdictOn(m, file, candidate);
    var undecodable := m.undecodable(file, Table(candidate));
    if verdict.Invalid? && Offending(candidate, verdict.paths) != [] {
      var offending, kept := Offending(candidate, verdict.paths), Kept(candidate, verdict.paths);
      KeptAndOffending(candidate, verdict.paths);
      KeptIsUnique(candidate, verdict.paths);
      StandingOnlyDrops(m, file, kept);
      assert undecodable + Warned(offending, Rejected) + Rounds(m, file, kept).warnings == Rounds(m, file, candidate).warnings;
      WarnedExactly(offending, Rejected, r.key);
      if r in kept {
        OutcomeOfTheRounds(m, file, kept, r);
        UniqueKeyMeansUniqueRow(candidate, r);
      } else if kept != [] {
        OutcomeOfTheRounds(m, file, kept, kept[0]);
      } else {
        NothingLeft(m, file);
      }
    }
  }

  lemma NothingLeft<C>(m: Rules<C>, file: C)
    ensures Standing(m, file, []) == []
    ensures var verdict := VerdictOn(m, file, []);
            Rounds(m, file, []).config == (if verdict.Valid? then verdict.config else file)
  {
  }

  lemma WarnedExactly(rows: seq<Row>, reason: Reason, key: string)
    ensures Warning(key, reason) in Warned(rows, reason) <==> exists r | r in rows :: r.key == key
  {
    if r :| r in rows && r.key == key {
      var i :| 0 <= i < |rows| && rows[i] == r;
      assert Warned(rows, reason)[i] == Warning(key, reason);
    }
    if Warning(key, reason) in Warned(rows, reason) {
      var i :| 0 <= i < |rows| && Warned(rows, reason)[i] == Warning(key, reason);
      assert rows[i] in rows;
    }
  }

  lemma UniqueKeyMeansUniqueRow(rows: seq<Row>, r: Row)
    requires UniqueKeys(rows) && r in rows
    ensures forall q | q in rows && q.key == r.key :: q == r
  {
  }

  lemma {:induction false} KeptIsUnique(rows: seq<Row>, paths: set<string>)
    requires UniqueKeys(rows)
    ensures UniqueKeys(Kept(rows, paths))
  {
    if rows != [] {
      KeptIsUnique(rows[1..], paths);
      assert forall r | r in Kept(rows[1..], paths) :: r in rows[1..] && r.key != rows[0].key;
    }
  }

  lemma {:induction false} StandingOnlyDrops<C>(m: Rules<C>, file: C, candidate: seq<Row>)
    ensures |Standing(m, file, candidate)| <= |candidate|
    ensures forall r | r in Standing(m, file, candidate) :: r in candidate
    decreases |candidate|
  {
    var verdict := VerdictOn(m, file, candidate);
    if verdict.Invalid? && Offending(candidate, verdict.paths) != [] {
      KeptAndOffending(candidate, verdict.paths);
      StandingOnlyDrops(m, file, Kept(candidate, verdict.paths));
    }
  }

  // ----- issue paths

  function Join(parts: seq<string>): string
    requires parts != []
  {
    if |parts| == 1 then parts[0] else parts[0] + "." + Join(parts[1..])
  }

  function Dotted(parts: seq<string>): string {
    if parts == [] then "" else parts[0] + "." + Dotted(parts[1..])
  }

  predicate NoDots(parts: seq<string>) {
    forall i | 0 <= i < |parts| :: '.' !in parts[i]
  }

  lemma {:induction false} JoinedIsDotted(parts: seq<string>)
    requires parts != []
    ensures Join(parts) + "." == Dotted(parts)
  {
    if |parts| == 1 {
      assert Dotted(parts[1..]) == "";
    } else {
      JoinedIsDotted(parts[1..]);
      assert parts[0] + "." + Join(parts[1..]) + "." == parts[0] + "." + (Join(parts[1..]) + ".");
    }
  }

  lemma FirstPartDecides(a: string, x: string, b: string, y: string)
    requires '.' !in a && '.' !in b
    ensures a + "." + x <= b + "." + y <==> a == b && x <= y
  {
    var l, r := a + "." + x, b + "." + y;
    if l <= r {
      assert l[|a|] == '.' && r[|b|] == '.';
      assert forall i | 0 <= i < |a| :: l[i] == a[i] && a[i] in a;
      assert forall i | 0 <= i < |b| :: r[i] == b[i] && b[i] in b;
      assert |a| == |b|;
      assert a == l[..|a|] == r[..|a|] == b;
      assert x == l[|a| + 1..] && y == r[|a| + 1..];
    }
  }

  lemma {:induction false} DottedPrefix(p: seq<string>, k: seq<string>)
    requires NoDots(p) && NoDots(k)
    ensures Dotted(p) <= Dotted(k) <==> p <= k
  {
    if p != [] && k != [] {
      DottedPrefix(p[1..], k[1..]);
      FirstPartDecides(p[0], Dotted(p[1..]), k[0], Dotted(k[1..]));
      assert p <= k <==> p[0] == k[0] && p[1..] <= k[1..] by { assert p == [p[0]] + p[1..] && k == [k[0]] + k[1..]; }
    }
  }

  // A row is blamed exactly by the issues reported on its own setting or on a block around it: rule
  // ten is not blamed for rule one.
  lemma BlameFollowsThePath(path: seq<string>, key: seq<string>)
    requires path != [] && key != [] && NoDots(path) && NoDots(key)
    ensures Names(Join(path), Join(key)) <==> path <= key
  {
    JoinedIsDotted(path);
    JoinedIsDotted(key);
    DottedPrefix(path, key);
    var p, k := Join(path), Join(key);
    assert Names(p, k) <==> p + "." <= k + "." by {
      if p + "." <= k + "." && |p| < |k| {
        assert p + "." == (k + ".")[..|p| + 1] == k[..|p| + 1];
      }
      if p + "." <= k + "." && |p| == |k| {
        assert p == (p + ".")[..|p|] == (k + ".")[..|k|] == k;
      }
    }
  }

  // ----- row order

  lemma {:induction false} TableHolds(rows: seq<Row>)
    requires UniqueKeys(rows)
    ensures forall key, value {:trigger Row(key, value) in rows} :: Row(key, value) in rows <==> key in Table(rows) && Table(rows)[key] == value
  {
    if rows != [] {
      var rest, last := rows[..|rows| - 1], rows[|rows| - 1];
      TableHolds(rest);
      assert rows == rest + [last];
      assert forall q | q in rest :: q.key != last.key;
      forall key, value ensures Row(key, value) in rows <==> key in Table(rows) && Table(rows)[key] == value {
        assert Row(key, value) in rest <==> key in Table(rest) && Table(rest)[key] == value;
      }
    }
  }

  lemma {:induction false} AtMostOnce(rows: seq<Row>, r: Row)
    requires UniqueKeys(rows)
    ensures multiset(rows)[r] == if r in rows then 1 else 0
  {
    if rows != [] {
      AtMostOnce(rows[1..], r);
      assert rows == [rows[0]] + rows[1..];
      assert rows[0] !in rows[1..];
    }
  }

  // The remembered key determines the rows, up to order.
  lemma SameTableSameRows(a: seq<Row>, b: seq<Row>)
    requires UniqueKeys(a) && UniqueKeys(b)
    ensures Table(a) == Table(b) <==> multiset(a) == multiset(b)
  {
    TableHolds(a);
    TableHolds(b);
    if Table(a) == Table(b) {
      forall r ensures multiset(a)[r] == multiset(b)[r] {
        AtMostOnce(a, r);
        AtMostOnce(b, r);
        assert r == Row(r.key, r.value);
      }
    }
    if multiset(a) == multiset(b) {
      forall key, value ensures Row(key, value) in a <==> Row(key, value) in b {
        assert Row(key, value) in a <==> Row(key, value) in multiset(a);
      }
      MapsAgree(Table(a), Table(b), a, b);
    }
  }

  lemma MapsAgree(s: map<string, string>, t: map<string, string>, a: seq<Row>, b: seq<Row>)
    requires forall key, value {:trigger Row(key, value) in a} :: Row(key, value) in a <==> key in s && s[key] == value
    requires forall key, value {:trigger Row(key, value) in b} :: Row(key, value) in b <==> key in t && t[key] == value
    requires forall key, value {:trigger Row(key, value) in a} :: Row(key, value) in a <==> Row(key, value) in b
    ensures s == t
  {
    forall key ensures key in s <==> key in t
            ensures key in s ==> s[key] == t[key]
    {
      if key in s { assert Row(key, s[key]) in a; }
      if key in t { assert Row(key, t[key]) in b; assert Row(key, t[key]) in a; }
    }
  }

  lemma {:induction false} OffendingCounts(rows: seq<Row>, paths: set<string>, r: Row)
    ensures multiset(Offending(rows, paths))[r] == if Blamed(paths, r.key) then multiset(rows)[r] else 0
  {
    if rows != [] {
      OffendingCounts(rows[1..], paths, r);
      assert rows == [rows[0]] + rows[1..];
    }
  }

  lemma {:induction false} UnknownCounts(rows: seq<Row>, known: set<string>, r: Row)
    ensures multiset(UnknownRows(rows, known))[r] == if r.key in known then 0 else multiset(rows)[r]
  {
    if rows != [] {
      UnknownCounts(rows[1..], known, r);
      assert rows == [rows[0]] + rows[1..];
    }
  }

  lemma FiltersKeepPermutations(a: seq<Row>, b: seq<Row>, paths: set<string>, known: set<string>)
    requires multiset(a) == multiset(b)
    ensures multiset(Offending(a, paths)) == multiset(Offending(b, paths))
    ensures multiset(Kept(a, paths)) == multiset(Kept(b, paths))
    ensures multiset(UnknownRows(a, known)) == multiset(UnknownRows(b, known))
  {
    forall r ensures multiset(Offending(a, paths))[r] == multiset(Offending(b, paths))[r] {
      OffendingCounts(a, paths, r);
      OffendingCounts(b, paths, r);
    }
    forall r ensures multiset(UnknownRows(a, known))[r] == multiset(UnknownRows(b, known))[r] {
      UnknownCounts(a, known, r);
      UnknownCounts(b, known, r);
    }
    KeptAndOffending(a, paths);
    KeptAndOffending(b, paths);
    assert multiset(Kept(a, paths)) == multiset(a) - multiset(Offending(a, paths));
  }

  lemma WarnedSplits(before: seq<Row>, r: Row, after: seq<Row>, reason: Reason)
    ensures multiset(Warned(before + [r] + after, reason)) == multiset{Warning(r.key, reason)} + multiset(Warned(before + after, reason))
  {
    assert Warned(before + [r] + after, reason) == Warned(before, reason) + [Warning(r.key, reason)] + Warned(after, reason);
    assert Warned(before + after, reason) == Warned(before, reason) + Warned(after, reason);
  }

  lemma OneElementOut<T>(before: seq<T>, x: T, after: seq<T>)
    ensures multiset(before + [x] + after) == multiset(before + after) + multiset{x}
  {
  }

  lemma WithoutOneRow(a: seq<Row>, b: seq<Row>) returns (before: seq<Row>, after: seq<Row>)
    requires a != [] && multiset(a) == multiset(b)
    ensures b == before + [a[0]] + after && multiset(before + after) == multiset(a[1..])
  {
    assert a[0] in multiset(b);
    var i :| 0 <= i < |b| && b[i] == a[0];
    before, after := b[..i], b[i + 1..];
    assert b == before + [a[0]] + after;
    OneElementOut(before, a[0], after);
    HeadOut(a);
    BagCancels(multiset(before + after), multiset(a[1..]), a[0]);
  }

  lemma HeadOut<T>(s: seq<T>)
    requires s != []
    ensures multiset(s) == multiset(s[1..]) + multiset{s[0]}
  {
    assert s == [s[0]] + s[1..];
  }

  lemma BagCancels<T>(s: multiset<T>, t: multiset<T>, x: T)
    requires s + multiset{x} == t + multiset{x}
    ensures s == t
  {
    assert s == s + multiset{x} - multiset{x} && t == t + multiset{x} - multiset{x};
  }

  lemma {:induction false} WarnedPermutes(a: seq<Row>, b: seq<Row>, reason: Reason)
    requires multiset(a) == multiset(b)
    ensures multiset(Warned(a, reason)) == multiset(Warned(b, reason))
  {
    if a == [] {
      assert |multiset(b)| == |multiset(a)| == 0;
    } else {
      var before, after := WithoutOneRow(a, b);
      WarnedPermutes(a[1..], before + after, reason);
      WarnedSplits(before, a[0], after, reason);
      WarnedSplits([], a[0], a[1..], reason);
      assert [] + [a[0]] + a[1..] == a && [] + a[1..] == a[1..];
    }
  }

  lemma {:induction false} RoundsIgnoreRowOrder<C>(m: Rules<C>, file: C, a: seq<Row>, b: seq<Row>)
    requires UniqueKeys(a) && UniqueKeys(b) && multiset(a) == multiset(b)
    ensures Rounds(m, file, a).config == Rounds(m, file, b).config
    ensures multiset(Rounds(m, file, a).warnings) == multiset(Rounds(m, file, b).warnings)
    decreases |a|
  {
    SameTableSameRows(a, b);
    var verdict := VerdictOn(m, file, a);
    if verdict.Invalid? {
      var paths := verdict.paths;
      FiltersKeepPermutations(a, b, paths, {});
      KeptAndOffending(a, paths);
      assert Offending(a, paths) == [] <==> Offending(b, paths) == [] by {
        assert |Offending(a, paths)| == |multiset(Offending(a, paths))| && |Offending(b, paths)| == |multiset(Offending(b, paths))|;
      }
      if Offending(a, paths) != [] {
        KeptIsUnique(a, paths);
        KeptIsUnique(b, paths);
        RoundsIgnoreRowOrder(m, file, Kept(a, paths), Kept(b, paths));
        WarnedPermutes(Offending(a, paths), Offending(b, paths), Rejected);
      }
    }
  }

  // In whatever order the rows come, the configuration is the same, and so are the warnings up to
  // their order.
  lemma MergeIgnoresRowOrder<C>(m: Rules<C>, file: C, a: seq<Row>, b: seq<Row>)
    requires UniqueKeys(a) && UniqueKeys(b) && Table(a) == Table(b)
    ensures Merge(m, file, a).config == Merge(m, file, b).config
    ensures multiset(Merge(m, file, a).warnings) == multiset(Merge(m, file, b).warnings)
  {
    SameTableSameRows(a, b);
    RoundsIgnoreRowOrder(m, file, a, b);
    FiltersKeepPermutations(a, b, {}, m.known(file));
    WarnedPermutes(UnknownRows(a, m.known(file)), UnknownRows(b, m.known(file)), UnknownKey);
  }

  // ----- the memo

  const MERGED_CONFIGS_PER_BASE := 8

  ghost predicate Remembered<C(!new)>(m: Rules<C>, file: C, key: map<string, string>, entry: Merged<C>) {
    exists rows :: UniqueKeys(rows) && Table(rows) == key && entry == Merge(m, file, rows)
  }

  lemma RememberedServes<C(!new)>(m: Rules<C>, file: C, rows: seq<Row>, entry: Merged<C>)
    requires UniqueKeys(rows) && Remembered(m, file, Table(rows), entry)
    ensures entry.config == Merge(m, file, rows).config
    ensures multiset(entry.warnings) == multiset(Merge(m, file, rows).warnings)
  {
    var seen :| UniqueKeys(seen) && Table(seen) == Table(rows) && entry == Merge(m, file, seen);
    MergeIgnoresRowOrder(m, file, seen, rows);
  }

  // Few enough entries, each of them what some ordering of its rows merges to.
  ghost predicate Faithful<C(!new)>(m: Rules<C>, file: C, byRows: map<map<string, string>, Merged<C>>) {
    |byRows| <= MERGED_CONFIGS_PER_BASE && forall key | key in byRows :: Remembered(m, file, key, byRows[key])
  }

  lemma FaithfulWithOneMore<C(!new)>(m: Rules<C>, file: C, byRows: map<map<string, string>, Merged<C>>, rows: seq<Row>)
    requires Faithful(m, file, byRows) && |byRows| < MERGED_CONFIGS_PER_BASE && UniqueKeys(rows)
    ensures Faithful(m, file, byRows[Table(rows) := Merge(m, file, rows)])
  {
    assert Remembered(m, file, Table(rows), Merge(m, file, rows));
  }

  class MergedConfigs<C(==,!new)> {
    const m: Rules<C>
    var byBase: map<C, map<map<string, string>, Merged<C>>>

    constructor (m: Rules<C>)
      ensures Valid() && this.m == m
    {
      this.m := m;
      byBase := map[];
    }

    ghost predicate Valid()
      reads this
    {
      forall file | file in byBase :: Faithful(m, file, byBase[file])
    }

    method LoadMergedConfig(file: C, rows: seq<Row>) returns (config: C, warnings: seq<Warning>)
      requires Valid() && GoodFile(m, file) && UniqueKeys(rows)
      modifies this
      ensures Valid()
      ensures config == Merge(m, file, rows).config
      ensures multiset(warnings) == multiset(Merge(m, file, rows).warnings)
    {
      if |rows| == 0 { return file, []; }
      var key := Table(rows);
      var byRows := if file in byBase then byBase[file] else map[];
      if key in byRows {
        RememberedServes(m, file, rows, byRows[key]);
        return byRows[key].config, byRows[key].warnings;
      }
      var ranOut, rounds;
      config, warnings, ranOut, rounds := MergeStoredRows(m, file, rows);
      if |byRows| >= MERGED_CONFIGS_PER_BASE { byRows := map[]; }
      FaithfulWithOneMore(m, file, byRows, rows);
      byRows := byRows[key := Merged(config, warnings)];
      byBase := byBase[file := byRows];
    }
  }
}
