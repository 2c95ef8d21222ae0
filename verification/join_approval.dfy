/**
 Which of the joins that a language model proposes are approved. Whether a stated reason is unsafe
 text is a parameter.
 */
module JoinApproval {
  import opened Ordering
  import opened Sequences
  import opened Wrappers

  datatype CandidateStatus = Approved | Rejected

  datatype Confidence = High | Medium | Low | NoConfidence

  datatype JoinType = Inner | Left | Right

  datatype Candidate = Candidate(
    status: CandidateStatus, confidence: Confidence, score: Option<real>, joinType: JoinType,
    leftResource: string, leftColumn: string, rightResource: string, rightColumn: string,
    reason: string, warnings: seq<string>, limitations: seq<string>)

  datatype Column = Column(key: string, id: string)

  datatype Resource = Resource(key: string, id: string, columns: seq<Column>)

  datatype OutputStatus = Completed | NoCandidates | InsufficientEvidence | ErrorStatus

  datatype Output = Output(status: OutputStatus, joins: seq<Candidate>, globalWarnings: seq<string>, limitations: seq<string>)

  datatype Write = Write(
    leftResourceId: string, leftColumnId: string, rightResourceId: string, rightColumnId: string,
    joinType: JoinType, score: real)

  datatype Summary = Summary(
    leftResource: string, leftColumn: string, rightResource: string, rightColumn: string, joinType: JoinType)

  datatype Problem = ModelReportedError | GlobalWarnings | GlobalLimitations

  datatype Verdict = Verdict(
    approved: seq<Write>, summaries: seq<Summary>, rejected: nat, skipped: nat, problem: Option<Problem>)

  const MIN_SCORE := 0.9

  /*** Indexes ***/

  /** The ids a pair of keys stands for. */
  datatype Ids = Ids(resource: string, column: string)

  type ColumnIndex = map<Key, Ids>

  function Entries(r: Resource): seq<(Key, Ids)> {
    Map(r.columns, (c: Column) => ((r.key, c.key), Ids(r.id, c.id)))
  }

  /** A later entry replaces an earlier one with the same key. */
  function IndexOf(entries: seq<(Key, Ids)>): ColumnIndex {
    if entries == [] then map[] else map[entries[0].0 := entries[0].1] + IndexOf(entries[1..])
  }

  function ColumnsOf(packet: seq<Resource>): ColumnIndex {
    IndexOf(Concat(packet, Entries))
  }

  function ResourcesOf(packet: seq<Resource>): set<string> {
    set r | r in packet :: r.key
  }

  ghost predicate IsColumn(packet: seq<Resource>, r: Resource, c: Column) {
    r in packet && c in r.columns
  }

  ghost predicate InPacket(packet: seq<Resource>, k: Key) {
    exists r, c :: IsColumn(packet, r, c) && k == (r.key, c.key)
  }

  ghost predicate Names(packet: seq<Resource>, k: Key, ids: Ids) {
    exists r, c :: IsColumn(packet, r, c) && k == (r.key, c.key) && ids == Ids(r.id, c.id)
  }

  /** The index holds the packet's own columns, all of them and nothing else. */
  lemma IndexIsFromPacket(packet: seq<Resource>, k: Key)
    ensures k in ColumnsOf(packet) <==> InPacket(packet, k)
    ensures k in ColumnsOf(packet) ==> Names(packet, k, ColumnsOf(packet)[k]) && k.0 in ResourcesOf(packet)
  {
    var entries := Concat(packet, Entries);
    IndexMembers(entries);
    ConcatMembers(packet, Entries);
    forall r, c | IsColumn(packet, r, c)
      ensures (r.key, c.key) in ColumnsOf(packet)
    {
      var i :| 0 <= i < |r.columns| && r.columns[i] == c;
      assert Entries(r)[i] in entries;
    }
    if k in ColumnsOf(packet) {
      var e := (k, ColumnsOf(packet)[k]);
      assert e in entries;
      var r :| r in packet && e in Entries(r);
      var i :| 0 <= i < |Entries(r)| && Entries(r)[i] == e;
      assert IsColumn(packet, r, r.columns[i]);
    }
  }

  lemma {:induction false} IndexMembers(entries: seq<(Key, Ids)>)
    ensures forall e | e in entries :: e.0 in IndexOf(entries)
    ensures forall k | k in IndexOf(entries) :: (k, IndexOf(entries)[k]) in entries
  {
    if entries != [] {
      IndexMembers(entries[1..]);
      assert entries == [entries[0]] + entries[1..];
      forall k | k in IndexOf(entries)
        ensures (k, IndexOf(entries)[k]) in entries
      {
        if k in IndexOf(entries[1..]) {
          assert (k, IndexOf(entries[1..])[k]) in entries[1..];
        } else {
          assert entries[0] == (k, IndexOf(entries)[k]);
        }
      }
    }
  }

  ghost predicate ColumnAt(packet: seq<Resource>, a: nat, b: nat, k: Key) {
    a < |packet| && b < |packet[a].columns| && k == (packet[a].key, packet[a].columns[b].key)
  }

  /** The last place in the packet where the keys stand. */
  ghost predicate LastAt(packet: seq<Resource>, a: nat, b: nat, k: Key) {
    && ColumnAt(packet, a, b, k)
    && forall c: nat, d: nat | ColumnAt(packet, c, d, k) :: c < a || (c == a && d <= b)
  }

  /** The ids of the last resource and column with these keys. */
  ghost predicate LastNamed(packet: seq<Resource>, k: Key, ids: Ids) {
    exists a: nat, b: nat :: LastAt(packet, a, b, k) && ids == Ids(packet[a].id, packet[a].columns[b].id)
  }

  lemma {:induction false} IndexAppend(a: seq<(Key, Ids)>, b: seq<(Key, Ids)>)
    ensures IndexOf(a + b) == IndexOf(a) + IndexOf(b)
  {
    if a == [] {
      assert a + b == b;
    } else {
      assert (a + b)[1..] == a[1..] + b;
      IndexAppend(a[1..], b);
    }
  }

  /** The last of the first n columns with the key. */
  lemma {:induction false} LastColumn(r: Resource, n: nat, k: Key) returns (b: nat)
    requires n <= |r.columns| && k in IndexOf(Entries(r)[..n])
    ensures b < n && k == (r.key, r.columns[b].key)
    ensures IndexOf(Entries(r)[..n])[k] == Ids(r.id, r.columns[b].id)
    ensures forall d | b < d < n :: k != (r.key, r.columns[d].key)
  {
    var entries, last := Entries(r), [Entries(r)[n - 1]];
    assert entries[..n] == entries[..n - 1] + last;
    IndexAppend(entries[..n - 1], last);
    assert IndexOf(last) == map[last[0].0 := last[0].1];
    if k == last[0].0 {
      b := n - 1;
    } else {
      b := LastColumn(r, n - 1, k);
    }
  }

  /** Of several columns with the same keys the index has the last. */
  lemma {:induction false} IndexIsLast(packet: seq<Resource>, k: Key) returns (a: nat, b: nat)
    requires k in ColumnsOf(packet)
    ensures LastAt(packet, a, b, k) && ColumnsOf(packet)[k] == Ids(packet[a].id, packet[a].columns[b].id)
  {
    var rest := packet[1..];
    IndexAppend(Entries(packet[0]), Concat(rest, Entries));
    assert forall c: nat, d: nat | c > 0 && ColumnAt(packet, c, d, k) :: ColumnAt(rest, c - 1, d, k);
    if k in ColumnsOf(rest) {
      a, b := IndexIsLast(rest, k);
      a := a + 1;
    } else {
      assert Entries(packet[0])[..|packet[0].columns|] == Entries(packet[0]);
      a := 0;
      b := LastColumn(packet[0], |packet[0].columns|, k);
      forall c: nat, d: nat | c > 0 && ColumnAt(packet, c, d, k)
        ensures false
      {
        IndexIsFromPacket(rest, k);
        assert IsColumn(rest, rest[c - 1], rest[c - 1].columns[d]);
      }
    }
  }

  /*** Candidates ***/

  function LeftKey(c: Candidate): Key {
    (c.leftResource, c.leftColumn)
  }

  function RightKey(c: Candidate): Key {
    (c.rightResource, c.rightColumn)
  }

  function NormalizedPair(c: Candidate): (Key, Key) {
    SortedPair(LeftKey(c), RightKey(c))
  }

  datatype SkipReason =
    | ConfidenceNotHigh
    | ConfidenceBelowThreshold
    | WarningsPresent
    | LimitationsPresent
    | UnknownResource
    | UnknownLeftColumn
    | UnknownRightColumn
    | SameColumnSelfJoin
    | DuplicateJoin
    | UnsafeReason

  function CandidateSkipReason(
    c: Candidate, resources: set<string>, columns: ColumnIndex, seen: set<(Key, Key)>, unsafe: string -> bool): Option<SkipReason>
  {
    if !c.confidence.High? then Some(ConfidenceNotHigh)
    else if c.score.None? || c.score.value < MIN_SCORE then Some(ConfidenceBelowThreshold)
    else if c.warnings != [] then Some(WarningsPresent)
    else if c.limitations != [] then Some(LimitationsPresent)
    else if c.leftResource !in resources || c.rightResource !in resources then Some(UnknownResource)
    else if LeftKey(c) !in columns then Some(UnknownLeftColumn)
    else if RightKey(c) !in columns then Some(UnknownRightColumn)
    else if LeftKey(c) == RightKey(c) then Some(SameColumnSelfJoin)
    else if NormalizedPair(c) in seen then Some(DuplicateJoin)
    else if unsafe(c.reason) then Some(UnsafeReason)
    else None
  }

  function Lookup(columns: ColumnIndex, k: Key): Ids {
    if k in columns then columns[k] else Ids("", "")
  }

  function WriteOf(columns: ColumnIndex): Candidate -> Write {
    (c: Candidate) =>
      var left, right := Lookup(columns, LeftKey(c)), Lookup(columns, RightKey(c));
      Write(left.resource, left.column, right.resource, right.column, c.joinType,
            if c.score.Some? then c.score.value else 0.0)
  }

  function SummaryOf(): Candidate -> Summary {
    (c: Candidate) => Summary(c.leftResource, c.leftColumn, c.rightResource, c.rightColumn, c.joinType)
  }

  /*** What is approved ***/

  /** A candidate that could be approved if there were no others. */
  ghost predicate Eligible(packet: seq<Resource>, unsafe: string -> bool, c: Candidate) {
    && c.status.Approved?
    && c.confidence.High?
    && c.score.Some? && c.score.value >= 0.9
    && c.warnings == [] && c.limitations == []
    && InPacket(packet, LeftKey(c)) && InPacket(packet, RightKey(c))
    && LeftKey(c) != RightKey(c)
    && !unsafe(c.reason)
  }

  /** The same two columns, in either direction. */
  predicate SamePair(a: Candidate, b: Candidate) {
    || (LeftKey(a) == LeftKey(b) && RightKey(a) == RightKey(b))
    || (LeftKey(a) == RightKey(b) && RightKey(a) == LeftKey(b))
  }

  ghost predicate Wins(packet: seq<Resource>, unsafe: string -> bool, joins: seq<Candidate>, i: nat) {
    && i < |joins|
    && Eligible(packet, unsafe, joins[i])
    && forall j | 0 <= j < i :: !(Eligible(packet, unsafe, joins[j]) && SamePair(joins[j], joins[i]))
  }

  ghost function Winning(packet: seq<Resource>, unsafe: string -> bool, joins: seq<Candidate>): nat -> bool {
    (i: nat) => Wins(packet, unsafe, joins, i)
  }

  ghost function Refused(joins: seq<Candidate>): nat -> bool {
    (i: nat) => i < |joins| && joins[i].status.Rejected?
  }

  ghost function Skipped(packet: seq<Resource>, unsafe: string -> bool, joins: seq<Candidate>): nat -> bool {
    (i: nat) => i < |joins| && joins[i].status.Approved? && !Wins(packet, unsafe, joins, i)
  }

  ghost function Winners(packet: seq<Resource>, unsafe: string -> bool, joins: seq<Candidate>): seq<Candidate> {
    Select(joins, Winning(packet, unsafe, joins))
  }

  ghost function Judged(output: Output, packet: seq<Resource>, unsafe: string -> bool): Verdict {
    if output.status.ErrorStatus? then Verdict([], [], 0, |output.joins|, Some(ModelReportedError))
    else if output.globalWarnings != [] then Verdict([], [], 0, |output.joins|, Some(GlobalWarnings))
    else if output.limitations != [] then Verdict([], [], 0, |output.joins|, Some(GlobalLimitations))
    else Tally(output.joins, packet, unsafe, |output.joins|)
  }

  /** The verdict on the first n candidates. */
  ghost function Tally(joins: seq<Candidate>, packet: seq<Resource>, unsafe: string -> bool, n: nat): Verdict
    requires n <= |joins|
  {
    var winners := Select(joins[..n], Winning(packet, unsafe, joins));
    Verdict(
      Map(winners, WriteOf(ColumnsOf(packet))),
      Map(winners, SummaryOf()),
      |Select(joins[..n], Refused(joins))|,
      |Select(joins[..n], Skipped(packet, unsafe, joins))|,
      None)
  }

  lemma TallyNext(joins: seq<Candidate>, packet: seq<Resource>, unsafe: string -> bool, i: nat)
    requires i < |joins|
    ensures var v, c := Tally(joins, packet, unsafe, i), joins[i];
      Tally(joins, packet, unsafe, i + 1) ==
        if c.status.Rejected? then v.(rejected := v.rejected + 1)
        else if Wins(packet, unsafe, joins, i) then
          v.(approved := v.approved + [WriteOf(ColumnsOf(packet))(c)], summaries := v.summaries + [SummaryOf()(c)])
        else v.(skipped := v.skipped + 1)
  {
    MapSelectNext(joins, i, Winning(packet, unsafe, joins), WriteOf(ColumnsOf(packet)));
    MapSelectNext(joins, i, Winning(packet, unsafe, joins), SummaryOf());
    SelectNext(joins, i, Refused(joins));
    SelectNext(joins, i, Skipped(packet, unsafe, joins));
  }

  ghost function SeenPairs(packet: seq<Resource>, unsafe: string -> bool, joins: seq<Candidate>, n: nat): set<(Key, Key)>
    requires n <= |joins|
  {
    set j | 0 <= j < n && Eligible(packet, unsafe, joins[j]) :: NormalizedPair(joins[j])
  }

  /** The tests of the code, with the pairs taken so far, pick out the winners. */
  lemma NoReasonMeansWinning(packet: seq<Resource>, unsafe: string -> bool, joins: seq<Candidate>, i: nat)
    requires i < |joins| && joins[i].status.Approved?
    ensures Wins(packet, unsafe, joins, i) <==>
      CandidateSkipReason(
        joins[i], ResourcesOf(packet), ColumnsOf(packet), SeenPairs(packet, unsafe, joins, i), unsafe).None?
  {
    var c := joins[i];
    IndexIsFromPacket(packet, LeftKey(c));
    IndexIsFromPacket(packet, RightKey(c));
    forall j | 0 <= j < i
      ensures NormalizedPair(joins[j]) == NormalizedPair(c) <==> SamePair(joins[j], c)
    {
      SortedPairIsUnordered(LeftKey(joins[j]), RightKey(joins[j]), LeftKey(c), RightKey(c));
    }
  }

  /** Recording the pairs of the winners records the pairs of all eligible candidates. */
  lemma SeenNext(packet: seq<Resource>, unsafe: string -> bool, joins: seq<Candidate>, i: nat)
    requires i < |joins|
    ensures SeenPairs(packet, unsafe, joins, i + 1) ==
      SeenPairs(packet, unsafe, joins, i)
        + if Wins(packet, unsafe, joins, i) then {NormalizedPair(joins[i])} else {}
  {
    if Eligible(packet, unsafe, joins[i]) && !Wins(packet, unsafe, joins, i) {
      var j :| 0 <= j < i && Eligible(packet, unsafe, joins[j]) && SamePair(joins[j], joins[i]);
      SortedPairIsUnordered(LeftKey(joins[j]), RightKey(joins[j]), LeftKey(joins[i]), RightKey(joins[i]));
    }
  }

  method ValidateLlmJoinOutput(output: Output, packet: seq<Resource>, unsafe: string -> bool) returns (v: Verdict)
    ensures v == Judged(output, packet, unsafe)
  {
    var joins := output.joins;
    if output.status.ErrorStatus? {
      return Verdict([], [], 0, |joins|, Some(ModelReportedError));
    }
    if output.globalWarnings != [] {
      return Verdict([], [], 0, |joins|, Some(GlobalWarnings));
    }
    if output.limitations != [] {
      return Verdict([], [], 0, |joins|, Some(GlobalLimitations));
    }
    var resources, columns := ResourcesOf(packet), ColumnsOf(packet);
    var approved: seq<Write>, summaries: seq<Summary> := [], [];
    var rejected, skipped := 0, 0;
    var seen: set<(Key, Key)> := {};
    for i := 0 to |joins|
      invariant seen == SeenPairs(packet, unsafe, joins, i)
      invariant Verdict(approved, summaries, rejected, skipped, None) == Tally(joins, packet, unsafe, i)
    {
      var c := joins[i];
      TallyNext(joins, packet, unsafe, i);
      SeenNext(packet, unsafe, joins, i);
      if !c.status.Approved? {
        rejected := rejected + 1;
        continue;
      }
      NoReasonMeansWinning(packet, unsafe, joins, i);
      if CandidateSkipReason(c, resources, columns, seen, unsafe).Some? {
        skipped := skipped + 1;
        continue;
      }
      seen := seen + {NormalizedPair(c)};
      approved := approved + [WriteOf(columns)(c)];
      summaries := summaries + [SummaryOf()(c)];
    }
    v := Verdict(approved, summaries, rejected, skipped, None);
  }

  /*** Properties ***/

  /** An error, warnings or limitations of the whole answer: nothing is approved and all is skipped. */
  lemma EarlyExits(output: Output, packet: seq<Resource>, unsafe: string -> bool)
    ensures var v := Judged(output, packet, unsafe);
      && v.problem == (
            if output.status == ErrorStatus then Some(ModelReportedError)
            else if output.globalWarnings != [] then Some(GlobalWarnings)
            else if output.limitations != [] then Some(GlobalLimitations)
            else None)
      && (v.problem.Some? ==> v.approved == [] && v.summaries == [] && v.rejected == 0 && v.skipped == |output.joins|)
  {
  }

  /** What is written for a candidate, and what is reported. */
  predicate WrittenFor(c: Candidate, w: Write, s: Summary) {
    && s == Summary(c.leftResource, c.leftColumn, c.rightResource, c.rightColumn, c.joinType)
    && w.joinType == c.joinType
    && c.score == Some(w.score)
  }

  /** What is written for the chosen candidates stands at their places. */
  lemma WrittenInPlace(joins: seq<Candidate>, columns: ColumnIndex, chosen: seq<Candidate>, at: seq<nat>)
    requires |at| == |chosen| && forall k | 0 <= k < |at| :: at[k] < |joins| && chosen[k] == joins[at[k]]
    requires forall k | 0 <= k < |chosen| :: chosen[k].score.Some?
    ensures forall k | 0 <= k < |at| ::
      WrittenFor(joins[at[k]], Map(chosen, WriteOf(columns))[k], Map(chosen, SummaryOf())[k])
  {
  }

  /** The refused candidates are counted. */
  lemma RefusedAreCounted(output: Output, packet: seq<Resource>, unsafe: string -> bool)
    requires Judged(output, packet, unsafe).problem.None?
    ensures Judged(output, packet, unsafe).rejected == |set i | 0 <= i < |output.joins| && output.joins[i].status.Rejected?|
  {
    var joins := output.joins;
    assert joins[..|joins|] == joins;
    SelectedCount(joins, Refused(joins));
    assert (set i | 0 <= i < |joins| && joins[i].status.Rejected?) == set i | 0 <= i < |joins| && Refused(joins)(i);
  }

  /** Without such a problem the winners are approved, each in its place. */
  lemma WinnersAreApproved(output: Output, packet: seq<Resource>, unsafe: string -> bool) returns (at: seq<nat>)
    requires Judged(output, packet, unsafe).problem.None?
    ensures forall i: nat :: i in at <==> Wins(packet, unsafe, output.joins, i)
    ensures forall j, k | 0 <= j < k < |at| :: at[j] < at[k]
    ensures var v := Judged(output, packet, unsafe);
      && |v.approved| == |v.summaries| == |at|
      && forall k | 0 <= k < |at| ::
           at[k] < |output.joins| && WrittenFor(output.joins[at[k]], v.approved[k], v.summaries[k])
  {
    at := WinningPositions(packet, unsafe, output.joins);
    WrittenInPlace(output.joins, ColumnsOf(packet), Winners(packet, unsafe, output.joins), at);
    assert output.joins[..|output.joins|] == output.joins;
  }

  lemma WinningPositions(packet: seq<Resource>, unsafe: string -> bool, joins: seq<Candidate>) returns (at: seq<nat>)
    ensures forall i: nat :: i in at <==> Wins(packet, unsafe, joins, i)
    ensures forall j, k | 0 <= j < k < |at| :: at[j] < at[k]
    ensures var w := Winners(packet, unsafe, joins);
      |at| == |w| && forall k | 0 <= k < |at| :: at[k] < |joins| && w[k] == joins[at[k]] && w[k].score.Some?
  {
    var winning := Winning(packet, unsafe, joins);
    at := SelectedPositions(joins, winning);
    forall i: nat
      ensures i in at <==> Wins(packet, unsafe, joins, i)
    {
      assert winning(i) == Wins(packet, unsafe, joins, i);
    }
    forall k | 0 <= k < |at|
      ensures joins[at[k]].score.Some?
    {
      assert winning(at[k]);
    }
  }

  /** Every candidate is counted once, on every path. */
  lemma EveryCandidateCounted(output: Output, packet: seq<Resource>, unsafe: string -> bool)
    ensures var v := Judged(output, packet, unsafe);
      |v.approved| + v.rejected + v.skipped == |output.joins|
  {
    var joins := output.joins;
    assert joins[..|joins|] == joins;
    SelectPartition(joins, Winning(packet, unsafe, joins), Refused(joins), Skipped(packet, unsafe, joins));
  }

  /** No two approved joins are on the same two columns, in either direction. */
  lemma {:induction false} WinnersArePairwiseDistinct(
    packet: seq<Resource>, unsafe: string -> bool, joins: seq<Candidate>, n: nat)
    requires n <= |joins|
    ensures var w := Select(joins[..n], Winning(packet, unsafe, joins));
      forall a, b | 0 <= a < b < |w| :: !SamePair(w[a], w[b])
  {
    if n > 0 {
      var winning := Winning(packet, unsafe, joins);
      WinnersArePairwiseDistinct(packet, unsafe, joins, n - 1);
      SelectNext(joins, n - 1, winning);
      SelectedAreElements(joins[..n - 1], winning);
      var earlier := Select(joins[..n - 1], winning);
      if winning(n - 1) {
        forall a | 0 <= a < |earlier|
          ensures !SamePair(earlier[a], joins[n - 1])
        {
          assert earlier[a] in earlier;
        }
      }
    }
  }

  /** An approved join and the summary beside it are about the same two columns of the packet. */
  ghost predicate Aligned(packet: seq<Resource>, w: Write, s: Summary) {
    var left, right := (s.leftResource, s.leftColumn), (s.rightResource, s.rightColumn);
    && LastNamed(packet, left, Ids(w.leftResourceId, w.leftColumnId))
    && LastNamed(packet, right, Ids(w.rightResourceId, w.rightColumnId))
    && left != right
    && w.joinType == s.joinType
    && w.score >= 0.9
  }

  /**
   Every approved join carries the ids of two different columns of the packet and a score of at
   least 0.9, and the summary in the same place names the same columns by their keys.
   */
  lemma ApprovalsAreSound(output: Output, packet: seq<Resource>, unsafe: string -> bool)
    ensures var v := Judged(output, packet, unsafe);
      && |v.approved| == |v.summaries|
      && (forall k | 0 <= k < |v.approved| :: Aligned(packet, v.approved[k], v.summaries[k]))
      && (v.problem.None? ==> v.summaries == Map(Winners(packet, unsafe, output.joins), SummaryOf()))
  {
    var joins := output.joins;
    var w := Select(joins[..|joins|], Winning(packet, unsafe, joins));
    assert joins[..|joins|] == joins;
    SelectedAreElements(joins, Winning(packet, unsafe, joins));
    forall k | 0 <= k < |w|
      ensures Aligned(packet, WriteOf(ColumnsOf(packet))(w[k]), SummaryOf()(w[k]))
    {
      assert w[k] in w;
      IdsComeFromPacket(packet, unsafe, w[k]);
    }
  }

  /** Each unordered pair of columns with an eligible candidate is approved exactly once. */
  lemma PairsApprovedOnce(packet: seq<Resource>, unsafe: string -> bool, joins: seq<Candidate>)
    ensures var w := Winners(packet, unsafe, joins);
      && (forall a, b | 0 <= a < b < |w| :: !SamePair(w[a], w[b]))
      && (forall c | c in joins && Eligible(packet, unsafe, c) :: exists d :: d in w && SamePair(d, c))
      && (forall d | d in w :: d in joins && Eligible(packet, unsafe, d))
  {
    var w := Winners(packet, unsafe, joins);
    assert joins[..|joins|] == joins;
    assert w == Select(joins[..|joins|], Winning(packet, unsafe, joins));
    WinnersArePairwiseDistinct(packet, unsafe, joins, |joins|);
    SelectedAreElements(joins, Winning(packet, unsafe, joins));
    forall c | c in joins && Eligible(packet, unsafe, c)
      ensures exists d :: d in w && SamePair(d, c)
    {
      var i :| 0 <= i < |joins| && joins[i] == c;
      var d := FirstOnPair(packet, unsafe, joins, i);
      assert joins[d] in w;
    }
  }

  lemma IdsComeFromPacket(packet: seq<Resource>, unsafe: string -> bool, c: Candidate)
    requires Eligible(packet, unsafe, c)
    ensures Aligned(packet, WriteOf(ColumnsOf(packet))(c), SummaryOf()(c))
  {
    IndexIsFromPacket(packet, LeftKey(c));
    IndexIsFromPacket(packet, RightKey(c));
    var a, b := IndexIsLast(packet, LeftKey(c));
    var d, e := IndexIsLast(packet, RightKey(c));
  }

  lemma {:induction false} FirstOnPair(packet: seq<Resource>, unsafe: string -> bool, joins: seq<Candidate>, i: nat)
    returns (d: nat)
    requires i < |joins| && Eligible(packet, unsafe, joins[i])
    ensures Wins(packet, unsafe, joins, d) && SamePair(joins[d], joins[i])
    decreases i
  {
    if Wins(packet, unsafe, joins, i) {
      d := i;
    } else {
      var j :| 0 <= j < i && Eligible(packet, unsafe, joins[j]) && SamePair(joins[j], joins[i]);
      d := FirstOnPair(packet, unsafe, joins, j);
    }
  }
}
