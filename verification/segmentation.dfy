/** RFM segmentation (`rfm_segment`) and the churn-risk label of the dashboard.

    A recency is `Option<int>`: `None` is the NaN that pandas produces for a
    customer without any parseable purchase timestamp. Every comparison with
    NaN is false, which `AtMost` and `Above` reproduce. */
module Segmentation {
  import opened Wrappers

  /** The eight labels `rfm_segment` can return. */
  datatype Segment =
    | Champions
    | LoyalCustomers
    | PotentialLoyalists
    | NewCustomers
    | NeedAttention
    | AtRisk
    | Lost
    | Others
  {
    /** Position of the label's rule in `Ladder`; `Others` comes last. */
    function Priority(): nat {
      match this
      case Champions => 0
      case LoyalCustomers => 1
      case PotentialLoyalists => 2
      case NewCustomers => 3
      case NeedAttention => 4
      case AtRisk => 5
      case Lost => 6
      case Others => 7
    }
  }

  /** `r <= bound`, false for a missing recency. */
  predicate AtMost(r: Option<int>, bound: int) {
    r.Some? && r.value <= bound
  }

  /** `r > bound`, false for a missing recency. */
  predicate Above(r: Option<int>, bound: int) {
    r.Some? && r.value > bound
  }

  /** The decision table read as data: the guard attached to each labelled
      rule. `Others` is the fallback and has no guard of its own. */
  predicate Guard(rule: Segment, r: Option<int>, f: int, m: real) {
    match rule
    case Champions          => AtMost(r, 30) && f >= 3 && m >= 1000.0
    case LoyalCustomers     => AtMost(r, 30) && f >= 2 && m >= 750.0
    case PotentialLoyalists => AtMost(r, 90) && f >= 2 && m >= 500.0
    case NewCustomers       => AtMost(r, 30) && f <= 2 && m <= 250.0
    case NeedAttention      => AtMost(r, 180) && f >= 3 && m >= 500.0
    case AtRisk             => Above(r, 180) && f >= 2 && m >= 250.0
    case Lost               => Above(r, 365) && f <= 2 && m <= 250.0
    case Others             => false
  }

  /** The priority order of the rules, highest first. */
  const Ladder: seq<Segment> :=
    [Champions, LoyalCustomers, PotentialLoyalists, NewCustomers, NeedAttention, AtRisk, Lost]

  /** Every labelled rule sits in `Ladder` at its label's priority. */
  lemma LadderPosition(s: Segment)
    requires s != Others
    ensures s.Priority() < |Ladder| && Ladder[s.Priority()] == s
  {
  }

  /** Reference semantics of an ordered rule table: the label of the first
      rule whose guard holds, `Others` when none does. */
  function FirstMatch(rules: seq<Segment>, r: Option<int>, f: int, m: real): (s: Segment)
    ensures s == Others <==> forall i :: 0 <= i < |rules| ==> !Guard(rules[i], r, f, m)
    ensures s != Others ==>
      exists i :: 0 <= i < |rules| && rules[i] == s && Guard(s, r, f, m) &&
        forall j :: 0 <= j < i ==> !Guard(rules[j], r, f, m)
  {
    if |rules| == 0 then Others
    else if Guard(rules[0], r, f, m) then rules[0]
    else
      var s := FirstMatch(rules[1..], r, f, m);
      assert forall i :: 1 <= i < |rules| ==> rules[i] == rules[1..][i - 1];
      s
  }

  /** `rfm_segment`: the if/elif ladder exactly as the dashboard writes it.
      The label returned is one whose guard holds and no rule listed before
      it holds; `Others` comes back exactly when no guard holds. */
  function SegmentOf(r: Option<int>, f: int, m: real): (s: Segment)
    ensures s != Others ==> Guard(s, r, f, m)
    ensures s == Others <==> forall i :: 0 <= i < |Ladder| ==> !Guard(Ladder[i], r, f, m)
    ensures forall i, j :: 0 <= j < i < |Ladder| && Ladder[i] == s ==> !Guard(Ladder[j], r, f, m)
  {
    assert Ladder[0] == Champions && Ladder[1] == LoyalCustomers && Ladder[2] == PotentialLoyalists;
    assert Ladder[3] == NewCustomers && Ladder[4] == NeedAttention && Ladder[5] == AtRisk;
    assert Ladder[6] == Lost;
    if AtMost(r, 30) && f >= 3 && m >= 1000.0 then Champions
    else if AtMost(r, 30) && f >= 2 && m >= 750.0 then LoyalCustomers
    else if AtMost(r, 90) && f >= 2 && m >= 500.0 then PotentialLoyalists
    else if AtMost(r, 30) && f <= 2 && m <= 250.0 then NewCustomers
    else if AtMost(r, 180) && f >= 3 && m >= 500.0 then NeedAttention
    else if Above(r, 180) && f >= 2 && m >= 250.0 then AtRisk
    else if Above(r, 365) && f <= 2 && m <= 250.0 then Lost
    else Others
  }

  /** The ladder and the rule table agree on every input. */
  lemma SegmentIsFirstMatch(r: Option<int>, f: int, m: real)
    ensures SegmentOf(r, f, m) == FirstMatch(Ladder, r, f, m)
  {
    var s := SegmentOf(r, f, m);
    var t := FirstMatch(Ladder, r, f, m);
    if t != Others {
      var k :| 0 <= k < |Ladder| && Ladder[k] == t && Guard(t, r, f, m) &&
        forall j :: 0 <= j < k ==> !Guard(Ladder[j], r, f, m);
      assert s != Others;
      LadderPosition(s);
    }
  }

  /** First match wins: (25, 4, 1200) also satisfies the Loyal Customers,
      Potential Loyalists and Need Attention guards, yet is a Champion. */
  lemma FirstMatchWins()
    ensures Guard(LoyalCustomers, Some(25), 4, 1200.0)
    ensures Guard(PotentialLoyalists, Some(25), 4, 1200.0)
    ensures Guard(NeedAttention, Some(25), 4, 1200.0)
    ensures SegmentOf(Some(25), 4, 1200.0) == Champions
  {
  }

  /** The recency bound of the Champions rule is inclusive: recency 30 can be
      a Champion, recency 31 or more never is, and neither is a missing one. */
  lemma ChampionsBoundary(r: Option<int>, f: int, m: real)
    ensures SegmentOf(Some(30), 3, 1000.0) == Champions
    ensures SegmentOf(r, f, m) == Champions <==> AtMost(r, 30) && f >= 3 && m >= 1000.0
    ensures !AtMost(r, 30) ==> SegmentOf(r, f, m) != Champions
  {
  }

  /** High spending does not make up for a single purchase: (10, 1, 5000)
      fails all seven guards and falls through to Others. */
  lemma OthersExample()
    ensures forall i :: 0 <= i < |Ladder| ==> !Guard(Ladder[i], Some(10), 1, 5000.0)
    ensures SegmentOf(Some(10), 1, 5000.0) == Others
  {
  }

  /** A customer whose recency is NaN matches no rule. */
  lemma MissingRecencyIsOthers(f: int, m: real)
    ensures SegmentOf(None, f, m) == Others
  {
  }

  /** The churn-risk label of the Insights tab. */
  datatype Risk = Low | Medium | High {

    /** Position of the label on the Low < Medium < High scale. */
    function Rank(): nat {
      match this
      case Low => 0
      case Medium => 1
      case High => 2
    }
  }

  /** `np.where(recency > 180, 'High', np.where(recency > 90, 'Medium', 'Low'))`.
      The three labels partition the recencies; a NaN recency is Low, since
      both comparisons are false for it. */
  function ChurnRisk(r: Option<int>): (k: Risk)
    ensures k == High <==> Above(r, 180)
    ensures k == Medium <==> r.Some? && 90 < r.value <= 180
    ensures k == Low <==> !Above(r, 90)
  {
    if Above(r, 180) then High
    else if Above(r, 90) then Medium
    else Low
  }

  /** The longer a customer has been away, the higher the churn risk. */
  lemma ChurnMonotone(r1: int, r2: int)
    requires r1 <= r2
    ensures ChurnRisk(Some(r1)).Rank() <= ChurnRisk(Some(r2)).Rank()
  {
  }
}
