/**
 * The bonus leader panel (src/components/Scoreboard/components/ScoreboardBonusLeaders.tsx):
 * for each bonus category, in the order barrel, wheat, cloth, the highest
 * value held by any player (at least 0) and every player holding exactly
 * that value, ties included, with the panel's text for them.
 */
module BonusLeaders {
  import opened Types
  import opened Wrappers
  import JsText
  import JsNumbers

  /** What the panel reads of a player: the name and the bonus breakdown,
      in which a category may be missing. */
  datatype Contender = Contender(name: string, bonus: map<BonusType, int>)

  const BonusTypes: seq<BonusType> := [Barrel, Wheat, Cloth]

  /** `bonusBreakdown[b] ?? 0`. */
  function ValueOrZero(c: Contender, b: BonusType): int {
    if b in c.bonus then c.bonus[b] else 0
  }

  /** `Math.max(0, ...values)`: at least 0, at least every player's value
      (a missing one counted as 0), and either 0 or some player's value. */
  function MaxPoints(cs: seq<Contender>, b: BonusType): (m: int)
    ensures m >= 0
    ensures forall i :: 0 <= i < |cs| ==> ValueOrZero(cs[i], b) <= m
    ensures m == 0 || exists i :: 0 <= i < |cs| && ValueOrZero(cs[i], b) == m
  {
    if cs == [] then 0
    else
      var rest := MaxPoints(cs[1..], b);
      var v := ValueOrZero(cs[0], b);
      assert forall i :: 1 <= i < |cs| ==> cs[i] == cs[1..][i - 1];
      if v > rest then v else rest
  }

  /** The raw value equals `m` (`===`: a missing value never does). */
  predicate Holds(c: Contender, b: BonusType, m: int) {
    b in c.bonus && c.bonus[b] == m
  }

  /** The players whose value is `m` (`filter`), in roster order. */
  function Leading(cs: seq<Contender>, b: BonusType, m: int): (r: seq<Contender>)
    ensures |r| <= |cs|
    ensures forall x :: x in r <==> x in cs && Holds(x, b, m)
  {
    if cs == [] then []
    else
      var r := (if Holds(cs[0], b, m) then [cs[0]] else []) + Leading(cs[1..], b, m);
      assert forall x :: x in cs <==> x == cs[0] || x in cs[1..];
      r
  }

  /** The leaders are the players whose value is `m`, each as often as it
      occurs in the roster, and nobody else. */
  lemma {:induction false} LeadingCount(cs: seq<Contender>, b: BonusType, m: int)
    ensures forall x :: multiset(Leading(cs, b, m))[x] == if Holds(x, b, m) then multiset(cs)[x] else 0
  {
    if cs != [] {
      LeadingCount(cs[1..], b, m);
      assert cs == [cs[0]] + cs[1..];
    }
  }

  /** Selecting leaders distributes over splitting the roster, so leaders
      keep roster order. */
  lemma {:induction false} LeadingAppend(xs: seq<Contender>, ys: seq<Contender>, b: BonusType, m: int)
    ensures Leading(xs + ys, b, m) == Leading(xs, b, m) + Leading(ys, b, m)
  {
    if xs != [] {
      var h := if Holds(xs[0], b, m) then [xs[0]] else [];
      assert (xs + ys)[0] == xs[0];
      assert (xs + ys)[1..] == xs[1..] + ys;
      LeadingAppend(xs[1..], ys, b, m);
      calc {
        Leading(xs + ys, b, m);
        h + Leading(xs[1..] + ys, b, m);
        h + (Leading(xs[1..], b, m) + Leading(ys, b, m));
        (h + Leading(xs[1..], b, m)) + Leading(ys, b, m);
        Leading(xs, b, m) + Leading(ys, b, m);
      }
    } else {
      assert xs + ys == ys;
    }
  }

  function Names(cs: seq<Contender>): (r: seq<string>)
    ensures |r| == |cs| && forall i :: 0 <= i < |cs| ==> r[i] == cs[i].name
  {
    seq(|cs|, i requires 0 <= i < |cs| => cs[i].name)
  }

  datatype Leader = Leader(bonusType: BonusType, maxPoints: int, leaderNames: seq<string>)

  /** The entry for category `b`: the maximum, and the names of the players
      holding it in roster order, at least one when the maximum is positive.
      Every player holding the maximum is listed, ties included. */
  function LeaderOf(cs: seq<Contender>, b: BonusType): (l: Leader)
    ensures l.bonusType == b && l.maxPoints == MaxPoints(cs, b)
    ensures l.leaderNames == Names(Leading(cs, b, l.maxPoints))
    ensures l.maxPoints > 0 ==> |l.leaderNames| > 0
    ensures forall name :: name in l.leaderNames ==>
      exists j :: 0 <= j < |cs| && cs[j].name == name && Holds(cs[j], b, l.maxPoints)
    ensures forall j :: 0 <= j < |cs| && Holds(cs[j], b, l.maxPoints) ==> cs[j].name in l.leaderNames
  {
    var m := MaxPoints(cs, b);
    var leading := Leading(cs, b, m);
    PositiveMaxHasLeaders(cs, b);
    var names := Names(leading);
    forall name | name in names
      ensures exists j :: 0 <= j < |cs| && cs[j].name == name && Holds(cs[j], b, m)
    {
      var k :| 0 <= k < |names| && names[k] == name;
      assert leading[k] in cs && Holds(leading[k], b, m);
      var j :| 0 <= j < |cs| && cs[j] == leading[k];
      assert cs[j].name == name;
    }
    forall j | 0 <= j < |cs| && Holds(cs[j], b, m)
      ensures cs[j].name in names
    {
      assert cs[j] in leading;
      var k :| 0 <= k < |leading| && leading[k] == cs[j];
      assert names[k] == cs[j].name;
    }
    Leader(b, m, names)
  }

  /** A positive maximum is held by at least one player. */
  lemma PositiveMaxHasLeaders(cs: seq<Contender>, b: BonusType)
    ensures MaxPoints(cs, b) > 0 ==> |Leading(cs, b, MaxPoints(cs, b))| > 0
  {
    var m := MaxPoints(cs, b);
    if m > 0 {
      var j :| 0 <= j < |cs| && ValueOrZero(cs[j], b) == m;
      assert Holds(cs[j], b, m) && cs[j] in cs;
    }
  }

  /** The leader entries: one per bonus category, in the order barrel,
      wheat, cloth. */
  function Leaders(cs: seq<Contender>): (r: seq<Leader>)
    ensures |r| == |BonusTypes| == 3
    ensures forall k :: 0 <= k < 3 ==> r[k].bonusType == BonusTypes[k] && r[k] == LeaderOf(cs, BonusTypes[k])
  {
    seq(3, k requires 0 <= k < 3 => LeaderOf(cs, BonusTypes[k]))
  }

  /** If some player has a positive value, the maximum is positive, there is
      at least one leader, and every leader holds the maximum, which no
      player exceeds. */
  lemma PositiveValueHasLeaders(cs: seq<Contender>, b: BonusType, i: nat)
    requires i < |cs| && ValueOrZero(cs[i], b) > 0
    ensures var m := MaxPoints(cs, b);
      m > 0 && |Leading(cs, b, m)| > 0 &&
      (forall x :: x in Leading(cs, b, m) ==> Holds(x, b, m)) &&
      (forall j :: 0 <= j < |cs| ==> ValueOrZero(cs[j], b) <= m)
  {
    var m := MaxPoints(cs, b);
    var j :| 0 <= j < |cs| && ValueOrZero(cs[j], b) == m;
    LeadingCount(cs, b, m);
    assert Holds(cs[j], b, m);
    assert multiset(cs)[cs[j]] > 0;
    assert multiset(Leading(cs, b, m))[cs[j]] > 0;
    forall x | x in Leading(cs, b, m) ensures Holds(x, b, m) {
      assert multiset(Leading(cs, b, m))[x] > 0;
    }
  }

  /** With no positive value anywhere the maximum is 0. */
  lemma NoPositiveValueMeansZero(cs: seq<Contender>, b: BonusType)
    requires forall j :: 0 <= j < |cs| ==> ValueOrZero(cs[j], b) <= 0
    ensures MaxPoints(cs, b) == 0
  {
  }

  /** The leader text: "尚無" (none) while the maximum is 0, whatever the
      list of names holds; the names joined by " / " otherwise, so two tied
      leaders read "first / second". */
  function LeaderText(l: Leader): (r: string)
    ensures l.maxPoints == 0 ==> r == "尚無"
    ensures l.maxPoints != 0 ==> r == JsText.Join(l.leaderNames, " / ")
    ensures l.maxPoints != 0 && |l.leaderNames| == 1 ==> r == l.leaderNames[0]
    ensures l.maxPoints != 0 && |l.leaderNames| == 2 ==> r == l.leaderNames[0] + " / " + l.leaderNames[1]
  {
    if l.maxPoints == 0 then "尚無"
    else
      var r := JsText.Join(l.leaderNames, " / ");
      assert |l.leaderNames| == 2 ==> r == l.leaderNames[0] + " / " + l.leaderNames[1] by {
        if |l.leaderNames| == 2 {
          assert l.leaderNames == [l.leaderNames[0]] + [l.leaderNames[1]];
          JsText.JoinSnoc([l.leaderNames[0]], l.leaderNames[1], " / ");
        }
      }
      r
  }

  /** The maximum in full-width parentheses, shown only when it is positive;
      the digits between the parentheses read back as the maximum. */
  function PointsSuffix(l: Leader): (r: string)
    ensures r == "" <==> l.maxPoints <= 0
    ensures r != "" ==>
      (|r| > 2 && r[0] == '（' && r[|r| - 1] == '）' &&
       JsNumbers.ParseInt(r[1..|r| - 1]) == Some(l.maxPoints))
  {
    if l.maxPoints > 0 then
      var digits := JsNumbers.IntToString(l.maxPoints);
      var r := "（" + digits + "）";
      assert r[1..|r| - 1] == digits;
      r
    else ""
  }

  /** What the panel shows for one category: "尚無" and no number exactly when
      nobody has a positive value; otherwise the names of the players holding
      the maximum (at least one) and the maximum in parentheses. */
  lemma LeaderDisplay(cs: seq<Contender>, b: BonusType)
    ensures var l := LeaderOf(cs, b);
      ((forall j :: 0 <= j < |cs| ==> ValueOrZero(cs[j], b) <= 0) <==> l.maxPoints == 0) &&
      (l.maxPoints == 0 ==> LeaderText(l) == "尚無" && PointsSuffix(l) == "") &&
      (l.maxPoints > 0 ==>
        |l.leaderNames| > 0 &&
        LeaderText(l) == JsText.Join(l.leaderNames, " / ") &&
        PointsSuffix(l) == "（" + JsNumbers.IntToString(l.maxPoints) + "）")
  {
    var l := LeaderOf(cs, b);
    if l.maxPoints > 0 {
      var j :| 0 <= j < |cs| && ValueOrZero(cs[j], b) == l.maxPoints;
      PositiveValueHasLeaders(cs, b, j);
    }
  }
}
