/** Assembling the organisation table: the generated lists are transposed into one
    row per participant and the rows are put in order of their ids. */
module Table {
  import opened Seqs
  import opened Targets

  /** One participant's row `[id, player, target, *values]`, one value per
      non-player field in declaration order. */
  datatype Row = Row(id: nat, player: string, target: string, values: seq<string>)

  /** The number of entries of the row as the source lays it out. */
  function Width(r: Row): nat {
    3 + |r.values|
  }

  function IdOf(r: Row): int { r.id }
  function PlayerOf(r: Row): string { r.player }
  function TargetOf(r: Row): string { r.target }

  /** The value a row holds for the j-th non-player field ("" when it has none). */
  function ValueAt(r: Row, j: nat): string {
    if j < |r.values| then r.values[j] else ""
  }

  function Ids(t: seq<Row>): seq<int> { MapSeq(IdOf, t) }
  function Players(t: seq<Row>): seq<string> { MapSeq(PlayerOf, t) }
  function TargetNames(t: seq<Row>): seq<string> { MapSeq(TargetOf, t) }

  function Column(t: seq<Row>, j: nat): (c: seq<string>)
    ensures |c| == |t| && forall k :: 0 <= k < |t| ==> c[k] == ValueAt(t[k], j)
  {
    seq(|t|, k requires 0 <= k < |t| => ValueAt(t[k], j))
  }

  /** Row i takes entry i of each list: the ids, the players, the targets and
      then one list per non-player field. Reading the
      columns of the result back gives the first n entries of each list. */
  function Transpose(ids: seq<nat>, players: seq<string>, targets: seq<string>,
                     others: seq<seq<string>>, n: nat): (t: seq<Row>)
    requires |ids| >= n && |players| >= n && |targets| >= n
    requires forall c :: c in others ==> |c| >= n
    ensures |t| == n
    ensures Ids(t) == ids[..n] && Players(t) == players[..n] && TargetNames(t) == targets[..n]
    ensures forall r :: r in t ==> |r.values| == |others|
    ensures forall j :: 0 <= j < |others| ==> Column(t, j) == others[j][..n]
  {
    var t := seq(n, i requires 0 <= i < n =>
      Row(ids[i], players[i], targets[i], seq(|others|, j requires 0 <= j < |others| => others[j][i])));
    assert forall j :: 0 <= j < |others| ==> Column(t, j) == others[j][..n] by {
      forall j | 0 <= j < |others| ensures Column(t, j) == others[j][..n] {
        assert others[j] in others;
      }
    }
    t
  }

  ghost predicate SortedById(t: seq<Row>) {
    forall i, j :: 0 <= i < j < |t| ==> t[i].id <= t[j].id
  }

  /** Puts `r` in front of the first row with a larger id. */
  function InsertById(r: Row, t: seq<Row>): (u: seq<Row>)
    requires SortedById(t)
    ensures SortedById(u)
    ensures multiset(u) == multiset(t) + multiset{r}
  {
    if t == [] then [r]
    else if r.id <= t[0].id then [r] + t
    else
      var rest := InsertById(r, t[1..]);
      assert t == [t[0]] + t[1..];
      forall k | 0 <= k < |rest| ensures t[0].id <= rest[k].id {
        assert rest[k] in multiset(rest);
        assert rest[k] in t[1..] || rest[k] == r;
      }
      ConsSorted(t[0], rest);
      [t[0]] + rest
  }

  lemma ConsSorted(x: Row, t: seq<Row>)
    requires SortedById(t)
    requires forall k :: 0 <= k < |t| ==> x.id <= t[k].id
    ensures SortedById([x] + t)
  {
    var u := [x] + t;
    forall i, j | 0 <= i < j < |u| ensures u[i].id <= u[j].id {
      if i > 0 {
        assert u[i] == t[i - 1];
      }
      assert u[j] == t[j - 1];
    }
  }

  /** The sort of the table. The source compares whole rows, but ids are unique so the
      first entry always decides; the rows are ordered by id. */
  function SortById(t: seq<Row>): (s: seq<Row>)
    ensures SortedById(s)
    ensures multiset(s) == multiset(t)
  {
    if t == [] then []
    else
      assert t == [t[0]] + t[1..];
      InsertById(t[0], SortById(t[1..]))
  }

  /** Transpose, then sort: the table as `_create_orga` returns it. */
  function Assemble(ids: seq<nat>, players: seq<string>, targets: seq<string>,
                    others: seq<seq<string>>, n: nat): (t: seq<Row>)
    requires |ids| >= n && |players| >= n && |targets| >= n
    requires forall c :: c in others ==> |c| >= n
    ensures |t| == n && SortedById(t)
    ensures multiset(Ids(t)) == multiset(ids[..n])
    ensures multiset(Players(t)) == multiset(players[..n])
    ensures multiset(TargetNames(t)) == multiset(targets[..n])
  {
    var tx := Transpose(ids, players, targets, others, n);
    var t := SortById(tx);
    ColumnsPermutation(t, tx);
    t
  }

  /** Reordering rows reorders every column the same way. */
  lemma ColumnsPermutation(s: seq<Row>, t: seq<Row>)
    requires multiset(s) == multiset(t)
    ensures |s| == |t|
    ensures multiset(Ids(s)) == multiset(Ids(t))
    ensures multiset(Players(s)) == multiset(Players(t))
    ensures multiset(TargetNames(s)) == multiset(TargetNames(t))
    ensures forall j: nat :: multiset(Column(s, j)) == multiset(Column(t, j))
  {
    assert |s| == |multiset(s)| == |multiset(t)| == |t|;
    MapPermutation(IdOf, s, t);
    MapPermutation(PlayerOf, s, t);
    MapPermutation(TargetOf, s, t);
    forall j: nat ensures multiset(Column(s, j)) == multiset(Column(t, j)) {
      var f := (r: Row) => ValueAt(r, j);
      MapPermutation(f, s, t);
      assert Column(s, j) == MapSeq(f, s);
      assert Column(t, j) == MapSeq(f, t);
    }
  }

  /** Once sorted, a table whose ids are a permutation of 0 .. n-1 has id k in row k. */
  lemma SortedIdsAreRowNumbers(t: seq<Row>, n: nat)
    requires SortedById(t)
    requires multiset(Ids(t)) == multiset(Range(n))
    ensures forall k :: 0 <= k < |t| ==> t[k].id == k
  {
    assert Sorted(Ids(t));
    SortedPermutationOfRange(Ids(t), n);
    forall k | 0 <= k < |t| ensures t[k].id == k {
      assert Ids(t)[k] == k;
    }
  }

  // Following targets through a table.

  /** The target of the first row played by `name`; a name nobody plays stays put. */
  function Step(t: seq<Row>, name: string): string {
    if t == [] then name
    else if t[0].player == name then t[0].target
    else Step(t[1..], name)
  }

  /** Where `k` steps of following targets lead from `name`. */
  function Follow(t: seq<Row>, name: string, k: nat): string {
    if k == 0 then name else Step(t, Follow(t, name, k - 1))
  }

  /** Nobody is their own target. */
  ghost predicate NoSelfTarget(t: seq<Row>) {
    forall r :: r in t ==> r.target != r.player
  }

  /** Following targets from any row comes back to it after exactly |t| steps,
      not earlier, and meets every row's player on the way. */
  ghost predicate SingleTargetCycle(t: seq<Row>) {
    && (forall r :: r in t ==> Follow(t, r.player, |t|) == r.player)
    && (forall r, k :: r in t && 0 < k < |t| ==> Follow(t, r.player, k) != r.player)
    && (forall r, r' :: r in t && r' in t ==>
          exists k :: 0 <= k < |t| && Follow(t, r.player, k) == r'.player)
  }

  /** Row m targets the player of the next row, the last row the first one. */
  ghost predicate RotatedTargets(t: seq<Row>) {
    |t| > 0 && forall m :: 0 <= m < |t| ==> t[m].target == t[Wrap(m + 1, |t|)].player
  }

  /** Some order of the rows has every row targeting the next row's player,
      the last row the first one. */
  ghost predicate Rotatable(t: seq<Row>) {
    exists s :: multiset(s) == multiset(t) && RotatedTargets(s)
  }

  /** Position x of a cycle of length n, for x < 2n. */
  function Wrap(x: nat, n: nat): nat {
    if x < n then x else x - n
  }

  lemma WrapNext(m: nat, n: nat)
    requires m < n
    ensures (m + 1) % n == Wrap(m + 1, n)
  {
  }

  lemma {:induction false} StepAt(t: seq<Row>, i: nat)
    requires Distinct(Players(t)) && i < |t|
    ensures Step(t, t[i].player) == t[i].target
  {
    if i > 0 {
      assert Players(t)[0] != Players(t)[i];
      assert Players(t[1..]) == Players(t)[1..];
      StepAt(t[1..], i - 1);
    }
  }

  /** A name nobody plays is its own next step. */
  lemma {:induction false} StepMissing(t: seq<Row>, name: string)
    requires forall r :: r in t ==> r.player != name
    ensures Step(t, name) == name
  {
    if t != [] {
      assert forall r :: r in t[1..] ==> r in t;
      StepMissing(t[1..], name);
    }
  }

  /** A name somebody plays steps to the target of one of that player's rows. */
  lemma {:induction false} StepRow(t: seq<Row>, name: string) returns (r: Row)
    requires exists r :: r in t && r.player == name
    ensures r in t && r.player == name && Step(t, name) == r.target
  {
    if t[0].player == name {
      r := t[0];
    } else {
      assert exists r :: r in t[1..] && r.player == name by {
        var r0 :| r0 in t && r0.player == name;
        assert r0 == t[0] || r0 in t[1..];
      }
      r := StepRow(t[1..], name);
    }
  }

  /** Following a target depends only on the rows, not on their order. */
  lemma StepPermutation(s: seq<Row>, t: seq<Row>, name: string)
    requires multiset(s) == multiset(t)
    requires Distinct(Players(t))
    ensures Step(s, name) == Step(t, name)
  {
    if exists i :: 0 <= i < |t| && t[i].player == name {
      var i :| 0 <= i < |t| && t[i].player == name;
      assert Step(t, name) == t[i].target by { StepAt(t, i); }
      assert exists r :: r in s && r.player == name by {
        assert t[i] in multiset(s);
      }
      var r := StepRow(s, name);
      var j := IndexIn(s, t, r);
      assert j == i by {
        assert Players(t)[i] == Players(t)[j];
      }
      assert Step(s, name) == t[i].target;
    } else {
      assert Step(t, name) == name by {
        forall r | r in t ensures r.player != name {
          var k :| 0 <= k < |t| && t[k] == r;
        }
        StepMissing(t, name);
      }
      assert Step(s, name) == name by {
        forall r | r in s ensures r.player != name {
          var k := IndexIn(s, t, r);
        }
        StepMissing(s, name);
      }
    }
  }


  lemma {:induction false} FollowPermutation(s: seq<Row>, t: seq<Row>, name: string, k: nat)
    requires multiset(s) == multiset(t)
    requires Distinct(Players(t))
    ensures Follow(s, name, k) == Follow(t, name, k)
  {
    if k > 0 {
      FollowPermutation(s, t, name, k - 1);
      StepPermutation(s, t, Follow(t, name, k - 1));
    }
  }

  /** In a rotated table, k steps from row i lead to row i + k, wrapping around. */
  lemma {:induction false} FollowRotated(t: seq<Row>, i: nat, k: nat)
    requires RotatedTargets(t) && Distinct(Players(t))
    requires i < |t| && k <= |t|
    ensures Follow(t, t[i].player, k) == t[Wrap(i + k, |t|)].player
  {
    if k > 0 {
      FollowRotated(t, i, k - 1);
      var m := Wrap(i + k - 1, |t|);
      StepAt(t, m);
    }
  }

  /** Following targets through a reordering of a rotated table, from the row of
      position i in the rotated table. */
  lemma FollowReordered(s: seq<Row>, t: seq<Row>, r: Row, k: nat) returns (i: nat)
    requires multiset(s) == multiset(t)
    requires RotatedTargets(t) && Distinct(Players(t))
    requires r in s && k <= |t|
    ensures i < |t| && t[i] == r
    ensures Follow(s, r.player, k) == t[Wrap(i + k, |t|)].player
  {
    i := IndexIn(s, t, r);
    FollowPermutation(s, t, r.player, k);
    FollowRotated(t, i, k);
  }

  lemma CycleCloses(s: seq<Row>, t: seq<Row>, r: Row)
    requires multiset(s) == multiset(t)
    requires RotatedTargets(t) && Distinct(Players(t))
    requires r in s
    ensures Follow(s, r.player, |t|) == r.player
  {
    var i := FollowReordered(s, t, r, |t|);
  }

  lemma CycleNotEarlier(s: seq<Row>, t: seq<Row>, r: Row, k: nat)
    requires multiset(s) == multiset(t)
    requires RotatedTargets(t) && Distinct(Players(t))
    requires r in s && 0 < k < |t|
    ensures Follow(s, r.player, k) != r.player
  {
    var i := FollowReordered(s, t, r, k);
    assert Players(t)[i] != Players(t)[Wrap(i + k, |t|)];
  }

  /** A row of a reordered table sits somewhere in the original. */
  lemma IndexIn(s: seq<Row>, t: seq<Row>, r: Row) returns (i: nat)
    requires multiset(s) == multiset(t) && r in s
    ensures i < |t| && t[i] == r
  {
    assert r in multiset(t);
    i :| 0 <= i < |t| && t[i] == r;
  }

  lemma CycleReaches(s: seq<Row>, t: seq<Row>, r: Row, r': Row)
    requires multiset(s) == multiset(t)
    requires RotatedTargets(t) && Distinct(Players(t))
    requires r in s && r' in s
    ensures exists k :: 0 <= k < |t| && Follow(s, r.player, k) == r'.player
  {
    var j := IndexIn(s, t, r');
    var i0 := IndexIn(s, t, r);
    var k := if i0 <= j then j - i0 else j + |t| - i0;
    var i := FollowReordered(s, t, r, k);
    assert Players(t)[i] == Players(t)[i0];
  }

  lemma RotatedNoSelfTarget(s: seq<Row>, t: seq<Row>, r: Row)
    requires multiset(s) == multiset(t)
    requires RotatedTargets(t) && Distinct(Players(t))
    requires r in s && |t| >= 2
    ensures r.target != r.player
  {
    var i := IndexIn(s, t, r);
    assert Players(t)[i] != Players(t)[Wrap(i + 1, |t|)];
  }

  /** The guarantee of the rotation, carried through any reordering of the rows:
      with distinct player names the targets form one cycle through everybody,
      and with two or more players nobody targets themself. */
  lemma RotationIsSingleCycle(s: seq<Row>, t: seq<Row>)
    requires multiset(s) == multiset(t)
    requires RotatedTargets(t) && Distinct(Players(t))
    ensures SingleTargetCycle(s)
    ensures |s| >= 2 ==> NoSelfTarget(s)
  {
    assert |s| == |multiset(s)| == |multiset(t)| == |t|;
    forall r | r in s ensures Follow(s, r.player, |s|) == r.player {
      CycleCloses(s, t, r);
    }
    forall r, k | r in s && 0 < k < |s| ensures Follow(s, r.player, k) != r.player {
      CycleNotEarlier(s, t, r, k);
    }
    forall r, r' | r in s && r' in s
      ensures exists k :: 0 <= k < |s| && Follow(s, r.player, k) == r'.player
    {
      CycleReaches(s, t, r, r');
    }
    if |s| >= 2 {
      forall r | r in s ensures r.target != r.player {
        RotatedNoSelfTarget(s, t, r);
      }
    }
  }

  /** The assembled table has one row per participant, row k carrying id k,
      and each list reappears, reordered, as a column of the table. */
  lemma AssembleRows(ids: seq<nat>, players: seq<string>, targets: seq<string>,
                     others: seq<seq<string>>, n: nat)
    requires |ids| == |players| == |targets| == n
    requires multiset(ids) == multiset(Range(n))
    requires forall c :: c in others ==> |c| == n
    ensures var t := Assemble(ids, players, targets, others, n);
      && |t| == n
      && (forall k :: 0 <= k < n ==> t[k].id == k)
      && (forall r :: r in t ==> |r.values| == |others|)
      && multiset(Players(t)) == multiset(players)
      && multiset(TargetNames(t)) == multiset(targets)
      && forall j :: 0 <= j < |others| ==> multiset(Column(t, j)) == multiset(others[j])
  {
    AssembleShape(ids, players, targets, others, n);
    AssembleColumns(ids, players, targets, others, n);
  }

  /** Sorting the transposed rows numbers them 0 to n-1 and keeps their width. */
  lemma AssembleShape(ids: seq<nat>, players: seq<string>, targets: seq<string>,
                      others: seq<seq<string>>, n: nat)
    requires |ids| == |players| == |targets| == n
    requires multiset(ids) == multiset(Range(n))
    requires forall c :: c in others ==> |c| == n
    ensures var t := Assemble(ids, players, targets, others, n);
      && |t| == n
      && (forall k :: 0 <= k < n ==> t[k].id == k)
      && (forall r :: r in t ==> |r.values| == |others|)
  {
    var tx := Transpose(ids, players, targets, others, n);
    var t := SortById(tx);
    assert Ids(tx) == ids by { assert ids[..n] == ids; }
    assert multiset(Ids(t)) == multiset(Ids(tx)) by { ColumnsPermutation(t, tx); }
    SortedIdsAreRowNumbers(t, n);
    forall r | r in t ensures |r.values| == |others| {
      assert r in multiset(tx);
    }
  }

  /** Sorting the transposed rows keeps every column's entries. */
  lemma AssembleColumns(ids: seq<nat>, players: seq<string>, targets: seq<string>,
                        others: seq<seq<string>>, n: nat)
    requires |ids| == |players| == |targets| == n
    requires forall c :: c in others ==> |c| == n
    ensures var t := Assemble(ids, players, targets, others, n);
      && multiset(Players(t)) == multiset(players)
      && multiset(TargetNames(t)) == multiset(targets)
      && forall j :: 0 <= j < |others| ==> multiset(Column(t, j)) == multiset(others[j])
  {
    assert players[..n] == players && targets[..n] == targets;
    var tx := Transpose(ids, players, targets, others, n);
    var t := SortById(tx);
    ColumnsPermutation(t, tx);
    forall j | 0 <= j < |others| ensures multiset(Column(t, j)) == multiset(others[j]) {
      assert others[j] in others;
      assert others[j][..n] == others[j];
    }
  }

  /** Targets taken from the player list rotated by one: the assembled rows can
      always be put back in an order where each targets the next one's player,
      a lone player targets themself, and distinct players form a single cycle
      of targets. */
  lemma AssembleTargets(ids: seq<nat>, players: seq<string>, others: seq<seq<string>>, n: nat)
    requires |ids| == |players| == n > 0
    requires forall c :: c in others ==> |c| == n
    ensures var t := Assemble(ids, players, RotateLeft(players), others, n);
      && Rotatable(t)
      && (n == 1 ==> t[0].target == t[0].player)
      && (Distinct(players) ==> SingleTargetCycle(t) && (n >= 2 ==> NoSelfTarget(t)))
  {
    var targets := RotateLeft(players);
    assert ids[..n] == ids && players[..n] == players && targets[..n] == targets;
    var tx := Transpose(ids, players, targets, others, n);
    var t := SortById(tx);
    assert |t| == |multiset(t)| == |multiset(tx)| == n;
    if n == 1 {
      assert t[0] in multiset(tx);
      assert tx[0].target == TargetNames(tx)[0] == targets[0] == players[0] == Players(tx)[0];
    }
    TransposeRotated(tx, players);
    assert Rotatable(t);
    if Distinct(players) {
      RotationIsSingleCycle(t, tx);
    }
  }

  /** Rows built from the players and the players rotated by one each target
      the next row's player. */
  lemma TransposeRotated(tx: seq<Row>, players: seq<string>)
    requires |players| > 0 && |tx| == |players|
    requires Players(tx) == players && TargetNames(tx) == RotateLeft(players)
    ensures RotatedTargets(tx)
  {
    var n := |tx|;
    forall m | 0 <= m < n ensures tx[m].target == tx[Wrap(m + 1, n)].player {
      WrapNext(m, n);
      assert TargetNames(tx)[m] == players[(m + 1) % n];
      assert Players(tx)[Wrap(m + 1, n)] == players[Wrap(m + 1, n)];
    }
  }
}
