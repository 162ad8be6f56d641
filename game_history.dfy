/**
 * The history list (src/components/GameHistory/utils.ts): every player's
 * records merged into one list, each tagged with its owner, then sorted
 * newest first by a stable sort, so the head of the list is the latest
 * record and records with the same timestamp keep roster order, then
 * history order.
 */
module GameHistory {
  import opened Types

  /** A record together with the id, name and CSS colour of its owner. */
  datatype HistoryRecord = HistoryRecord(record: ScoreRecord, playerId: int, playerName: string, playerColor: string)

  function Tag(p: Player, r: ScoreRecord): HistoryRecord {
    HistoryRecord(r, p.id, p.name, ColorCss(p.color))
  }

  /** The records `rs` of player `p`, each tagged with `p`. */
  function TagAll(p: Player, rs: seq<ScoreRecord>): (r: seq<HistoryRecord>)
    ensures |r| == |rs|
    ensures forall k :: 0 <= k < |rs| ==> r[k] == Tag(p, rs[k])
  {
    if rs == [] then [] else TagAll(p, rs[..|rs| - 1]) + [Tag(p, rs[|rs| - 1])]
  }

  /** All records of all players, roster order first, then history order. */
  function Flatten(ps: seq<Player>): (r: seq<HistoryRecord>)
    ensures |r| == TotalRecords(ps)
  {
    if ps == [] then [] else Flatten(ps[..|ps| - 1]) + TagAll(ps[|ps| - 1], ps[|ps| - 1].history)
  }

  /** The number of records over all players. */
  function TotalRecords(ps: seq<Player>): nat {
    if ps == [] then 0 else TotalRecords(ps[..|ps| - 1]) + |ps[|ps| - 1].history|
  }

  /** There are no records at all exactly when every player's history is
      empty, an empty roster included. */
  lemma {:induction false} NoRecordsIffEmptyHistories(ps: seq<Player>)
    ensures TotalRecords(ps) == 0 <==> forall i :: 0 <= i < |ps| ==> ps[i].history == []
  {
    if ps != [] {
      var init := ps[..|ps| - 1];
      NoRecordsIffEmptyHistories(init);
      assert forall i :: 0 <= i < |init| ==> init[i] == ps[i];
    }
  }

  /** The merged list has one entry per record of every player, and every
      entry is a record of some player tagged with that player. */
  lemma FlattenContents(ps: seq<Player>)
    ensures |Flatten(ps)| == TotalRecords(ps)
    ensures forall x :: x in Flatten(ps) ==>
      exists i, k :: 0 <= i < |ps| && 0 <= k < |ps[i].history| && x == Tag(ps[i], ps[i].history[k])
    ensures forall i, k :: 0 <= i < |ps| && 0 <= k < |ps[i].history| ==> Tag(ps[i], ps[i].history[k]) in Flatten(ps)
  {
    FlattenOnlyTagged(ps);
    FlattenHasTagged(ps);
  }

  /** Every entry of the merged list is a record of some player tagged with
      that player. */
  lemma {:induction false} FlattenOnlyTagged(ps: seq<Player>)
    ensures forall x :: x in Flatten(ps) ==>
      exists i, k :: 0 <= i < |ps| && 0 <= k < |ps[i].history| && x == Tag(ps[i], ps[i].history[k])
  {
    if ps != [] {
      var init := ps[..|ps| - 1];
      var last := ps[|ps| - 1];
      FlattenOnlyTagged(init);
      forall x | x in Flatten(ps)
        ensures exists i, k :: 0 <= i < |ps| && 0 <= k < |ps[i].history| && x == Tag(ps[i], ps[i].history[k])
      {
        if x in Flatten(init) {
          var i, k :| 0 <= i < |init| && 0 <= k < |init[i].history| && x == Tag(init[i], init[i].history[k]);
          assert ps[i] == init[i];
        } else {
          var k :| 0 <= k < |last.history| && TagAll(last, last.history)[k] == x;
          assert ps[|ps| - 1] == last;
        }
      }
    }
  }

  /** Every record of every player, tagged with that player, is in the
      merged list. */
  lemma {:induction false} FlattenHasTagged(ps: seq<Player>)
    ensures forall i, k :: 0 <= i < |ps| && 0 <= k < |ps[i].history| ==> Tag(ps[i], ps[i].history[k]) in Flatten(ps)
  {
    if ps != [] {
      var init := ps[..|ps| - 1];
      var last := ps[|ps| - 1];
      FlattenHasTagged(init);
      forall i, k | 0 <= i < |ps| && 0 <= k < |ps[i].history|
        ensures Tag(ps[i], ps[i].history[k]) in Flatten(ps)
      {
        if i < |init| {
          assert ps[i] == init[i];
        } else {
          assert TagAll(last, last.history)[k] == Tag(ps[i], ps[i].history[k]);
        }
      }
    }
  }

  function Timestamp(h: HistoryRecord): int {
    h.record.timestamp
  }

  /** Non-increasing timestamps: the newest record first. */
  predicate NewestFirst(s: seq<HistoryRecord>) {
    forall i, j :: 0 <= i < j < |s| ==> Timestamp(s[i]) >= Timestamp(s[j])
  }

  /** The entries of `s` with timestamp `t`, in the order they occur. */
  function AtTime(s: seq<HistoryRecord>, t: int): seq<HistoryRecord> {
    if s == [] then []
    else (if Timestamp(s[0]) == t then [s[0]] else []) + AtTime(s[1..], t)
  }

  /** For every timestamp, the entries carrying it occur in the same order
      in `s` as in `u`: what a stable sort keeps from its input. */
  ghost predicate SameOrderPerTimestamp(s: seq<HistoryRecord>, u: seq<HistoryRecord>) {
    forall t :: AtTime(s, t) == AtTime(u, t)
  }

  lemma {:induction false} AtTimeAppend(a: seq<HistoryRecord>, b: seq<HistoryRecord>, t: int)
    ensures AtTime(a + b, t) == AtTime(a, t) + AtTime(b, t)
  {
    if a != [] {
      assert (a + b)[0] == a[0];
      assert (a + b)[1..] == a[1..] + b;
      AtTimeAppend(a[1..], b, t);
      var h := if Timestamp(a[0]) == t then [a[0]] else [];
      assert a + b != [];
      assert AtTime(a + b, t) == h + AtTime((a + b)[1..], t);
      assert AtTime(a, t) == h + AtTime(a[1..], t);
      assert h + (AtTime(a[1..], t) + AtTime(b, t)) == (h + AtTime(a[1..], t)) + AtTime(b, t);
    } else {
      assert a + b == b;
    }
  }

  /** Two entries with different timestamps can trade places without
      changing the entries of any timestamp. */
  lemma PairAtTime(x: HistoryRecord, y: HistoryRecord, t: int)
    requires Timestamp(x) != Timestamp(y)
    ensures AtTime([x, y], t) == AtTime([y, x], t)
  {
    assert [x, y][1..] == [y];
    assert [y, x][1..] == [x];
    assert [y][1..] == [] && [x][1..] == [];
  }

  /** Exchanging two neighbours with different timestamps keeps the order
      of every timestamp's entries. */
  lemma SwapKeepsOrder(s: seq<HistoryRecord>, k: nat)
    requires k + 1 < |s| && Timestamp(s[k]) != Timestamp(s[k + 1])
    ensures SameOrderPerTimestamp(s[k := s[k + 1]][k + 1 := s[k]], s)
  {
    var s' := s[k := s[k + 1]][k + 1 := s[k]];
    var pre, post := s[..k], s[k + 2..];
    var ab, ba := [s[k], s[k + 1]], [s[k + 1], s[k]];
    assert s == pre + (ab + post);
    assert s' == pre + (ba + post);
    forall t ensures AtTime(s', t) == AtTime(s, t) {
      AtTimeAppend(pre, ab + post, t);
      AtTimeAppend(pre, ba + post, t);
      AtTimeAppend(ab, post, t);
      AtTimeAppend(ba, post, t);
      PairAtTime(s[k], s[k + 1], t);
    }
  }

  /** An entry occurs in `s` as often as among the entries with its timestamp. */
  lemma {:induction false} CountAtTime(s: seq<HistoryRecord>, x: HistoryRecord)
    ensures multiset(s)[x] == multiset(AtTime(s, Timestamp(x)))[x]
  {
    if s != [] {
      assert s == [s[0]] + s[1..];
      CountAtTime(s[1..], x);
    }
  }

  /** Keeping every timestamp's order makes the two lists permutations of
      each other. */
  lemma SameOrderIsPermutation(s: seq<HistoryRecord>, u: seq<HistoryRecord>)
    requires SameOrderPerTimestamp(s, u)
    ensures multiset(s) == multiset(u)
  {
    forall x ensures multiset(s)[x] == multiset(u)[x] {
      CountAtTime(s, x);
      CountAtTime(u, x);
    }
  }

  /** The newest-first order that keeps every timestamp's order is unique:
      any two lists with both properties over the same entries are equal.
      So the list the sort produces is fully determined by its input. */
  lemma {:induction false} NewestFirstIsUnique(s: seq<HistoryRecord>, u: seq<HistoryRecord>)
    requires NewestFirst(s) && NewestFirst(u) && SameOrderPerTimestamp(s, u)
    ensures s == u
  {
    SameOrderIsPermutation(s, u);
    assert |s| == |multiset(s)| == |multiset(u)| == |u|;
    if s != [] {
      var t := Timestamp(s[0]);
      HeadTimestampBound(s, u);
      HeadTimestampBound(u, s);
      assert Timestamp(u[0]) == t;
      assert AtTime(s, t)[0] == s[0];
      assert AtTime(u, t)[0] == u[0];
      assert s[0] == u[0];
      forall t' ensures AtTime(s[1..], t') == AtTime(u[1..], t') {
        var h := if Timestamp(s[0]) == t' then [s[0]] else [];
        assert AtTime(s, t') == h + AtTime(s[1..], t');
        assert AtTime(u, t') == h + AtTime(u[1..], t');
        assert AtTime(s[1..], t') == AtTime(s, t')[|h|..];
        assert AtTime(u[1..], t') == AtTime(u, t')[|h|..];
      }
      NewestFirstIsUnique(s[1..], u[1..]);
      assert s == [s[0]] + s[1..];
      assert u == [u[0]] + u[1..];
    }
  }

  /** The head of a newest-first list is at least as new as every entry of
      a list with the same per-timestamp order. */
  lemma HeadTimestampBound(s: seq<HistoryRecord>, u: seq<HistoryRecord>)
    requires s != [] && u != [] && NewestFirst(s) && SameOrderPerTimestamp(s, u)
    ensures Timestamp(u[0]) <= Timestamp(s[0])
  {
    var t := Timestamp(u[0]);
    assert AtTime(u, t) != [];
    assert AtTime(s, t) != [];
    var x := AtTime(s, t)[0];
    AtTimeMembers(s, t);
    var i :| 0 <= i < |s| && s[i] == x;
    assert Timestamp(x) == t;
  }

  lemma {:induction false} AtTimeMembers(s: seq<HistoryRecord>, t: int)
    ensures forall x :: x in AtTime(s, t) ==> x in s && Timestamp(x) == t
  {
    if s != [] {
      AtTimeMembers(s[1..], t);
    }
  }

  /** The first `n` entries are newest first. */
  predicate SortedPrefix(s: seq<HistoryRecord>, n: nat)
    requires n <= |s|
  {
    forall p, q :: 0 <= p < q < n ==> Timestamp(s[p]) >= Timestamp(s[q])
  }

  /** The first `i + 1` entries are newest first, except that the entry at
      `j`, which is being moved towards the front, may be newer than those
      before it. */
  predicate SortedExcept(s: seq<HistoryRecord>, i: nat, j: nat)
    requires j <= i < |s|
  {
    forall p, q :: 0 <= p < q <= i && q != j ==> Timestamp(s[p]) >= Timestamp(s[q])
  }

  /** Moving the newer entry at `j` one place forward keeps the prefix
      sorted apart from that entry. */
  lemma InsertStep(s: seq<HistoryRecord>, i: nat, j: nat)
    requires 0 < j <= i < |s| && SortedExcept(s, i, j)
    requires Timestamp(s[j - 1]) < Timestamp(s[j])
    ensures SortedExcept(s[j - 1 := s[j]][j := s[j - 1]], i, j - 1)
  {
  }

  /** Once the moving entry is no newer than the one before it (or at the
      front), the first `i + 1` entries are sorted. */
  lemma InsertDone(s: seq<HistoryRecord>, i: nat, j: nat)
    requires j <= i < |s| && SortedExcept(s, i, j)
    requires j == 0 || Timestamp(s[j - 1]) >= Timestamp(s[j])
    ensures SortedPrefix(s, i + 1)
  {
  }

  /** Keeping each timestamp's order is transitive. */
  lemma SameOrderTrans(s: seq<HistoryRecord>, u: seq<HistoryRecord>, v: seq<HistoryRecord>)
    requires SameOrderPerTimestamp(s, u) && SameOrderPerTimestamp(u, v)
    ensures SameOrderPerTimestamp(s, v)
  {
  }

  /** Stable in-place insertion sort of `a`, newest first. */
  method SortNewestFirst(a: array<HistoryRecord>)
    modifies a
    ensures NewestFirst(a[..])
    ensures SameOrderPerTimestamp(a[..], old(a[..]))
  {
    if a.Length == 0 {
      return;
    }
    var i := 1;
    while i < a.Length
      invariant 1 <= i <= a.Length
      invariant SortedPrefix(a[..], i)
      invariant SameOrderPerTimestamp(a[..], old(a[..]))
    {
      var j := i;
      while j > 0 && Timestamp(a[j - 1]) < Timestamp(a[j])
        invariant 0 <= j <= i < a.Length
        invariant SortedExcept(a[..], i, j)
        invariant SameOrderPerTimestamp(a[..], old(a[..]))
      {
        ghost var before := a[..];
        InsertStep(before, i, j);
        SwapKeepsOrder(before, j - 1);
        a[j - 1], a[j] := a[j], a[j - 1];
        assert a[..] == before[j - 1 := before[j]][j := before[j - 1]];
        SameOrderTrans(a[..], before, old(a[..]));
        j := j - 1;
      }
      InsertDone(a[..], i, j);
      i := i + 1;
    }
  }

  /** `buildHistoryRecords`: push every record of every player, tagged with
      its owner, then sort newest first. The result is newest first, keeps
      each timestamp's roster-then-history order, and is a permutation of
      all the players' records. */
  method BuildHistoryRecords(players: seq<Player>) returns (records: seq<HistoryRecord>)
    ensures NewestFirst(records)
    ensures SameOrderPerTimestamp(records, Flatten(players))
    ensures multiset(records) == multiset(Flatten(players))
    ensures |records| == TotalRecords(players)
  {
    var acc: seq<HistoryRecord> := [];
    var i := 0;
    while i < |players|
      invariant 0 <= i <= |players|
      invariant acc == Flatten(players[..i])
    {
      var p := players[i];
      var k := 0;
      while k < |p.history|
        invariant 0 <= k <= |p.history|
        invariant acc == Flatten(players[..i]) + TagAll(p, p.history[..k])
      {
        assert p.history[..k + 1][..k] == p.history[..k];
        acc := acc + [Tag(p, p.history[k])];
        k := k + 1;
      }
      assert p.history[..k] == p.history;
      assert players[..i + 1][..i] == players[..i];
      i := i + 1;
    }
    assert players[..i] == players;
    var a := new HistoryRecord[|acc|](j requires 0 <= j < |acc| => acc[j]);
    assert a[..] == acc;
    SortNewestFirst(a);
    records := a[..];
    SameOrderIsPermutation(records, acc);
    FlattenContents(players);
  }

  /** The head of the sorted list, which the history screen treats as the
      latest record, is a record of some player and is at least as new as
      every record of every player. */
  lemma LatestIsHead(players: seq<Player>, records: seq<HistoryRecord>)
    requires NewestFirst(records) && multiset(records) == multiset(Flatten(players))
    requires records != []
    ensures records[0] in Flatten(players)
    ensures forall x :: x in Flatten(players) ==> Timestamp(x) <= Timestamp(records[0])
  {
    assert records[0] in multiset(records);
    forall x | x in Flatten(players) ensures Timestamp(x) <= Timestamp(records[0]) {
      assert x in multiset(Flatten(players));
      var j :| 0 <= j < |records| && records[j] == x;
    }
  }

  /** What a record shows: the label and icon of its score category for a
      score record; for a bonus record the bonus category whose label and
      icon are looked up. */
  datatype Display = ScoreDisplay(labelText: string, icon: string) | BonusDisplay(bonusType: BonusType)

  /** `getRecordDisplay`. */
  function RecordDisplay(r: ScoreRecord): (d: Display)
    ensures d.ScoreDisplay? <==> r.kind.Score?
    ensures d.ScoreDisplay? ==> d.labelText == ScoreLabel(r.kind.scoreType) && d.icon == ScoreIcon(r.kind.scoreType)
    ensures d.BonusDisplay? ==> d.bonusType == r.kind.bonusType
  {
    match r.kind
    case Score(t) => ScoreDisplay(ScoreLabel(t), ScoreIcon(t))
    case Bonus(b) => BonusDisplay(b)
  }

  /** Two score records show the same label exactly when they are of the
      same category. */
  lemma ScoreDisplayIdentifies(r1: ScoreRecord, r2: ScoreRecord)
    requires r1.kind.Score? && r2.kind.Score?
    ensures RecordDisplay(r1).labelText == RecordDisplay(r2).labelText <==> r1.kind.scoreType == r2.kind.scoreType
  {
    ScoreLabelsDistinct(r1.kind.scoreType, r2.kind.scoreType);
  }
}
