/** The paytable: what one pull of the three reels pays, in credits. */
module Paytable {
  import opened SlotTypes

  /** Number of reels that show the value 0 (the bell). */
  function ZeroCount(t: Triple): (n: nat)
    ensures n <= 3
    ensures n == 3 <==> t.a == 0 && t.b == 0 && t.c == 0
    ensures n == 0 <==> t.a != 0 && t.b != 0 && t.c != 0
  {
    (if t.a == 0 then 1 else 0) + (if t.b == 0 then 1 else 0) + (if t.c == 0 then 1 else 0)
  }

  /** All three reels show the value `k`. */
  predicate AllAre(t: Triple, k: int) {
    t.a == k && t.b == k && t.c == k
  }

  /** The credit values the paytable can award. */
  const PayValues: set<nat> := {700, 200, 10, 20, 60, 15, 40, 80, 5, 1, 0}

  /** The payout of a triple, as the code's decision chain computes it:
      the first condition that holds decides. */
  function Payout(t: Triple): (r: nat)
    ensures r in PayValues
    ensures r > 1 <==> (AllAre(t, t.a) && 0 <= t.a <= 7) || ZeroCount(t) == 2
  {
    if AllAre(t, 7) then 700
    else if AllAre(t, 6) then 200
    else if AllAre(t, 5) then 10
    else if AllAre(t, 4) then 20
    else if AllAre(t, 3) then 60
    else if AllAre(t, 2) then 15
    else if AllAre(t, 1) then 40
    else if AllAre(t, 0) then 80
    else if ZeroCount(t) == 2 then 5
    else if ZeroCount(t) == 1 then 1
    else 0
  }

  /** One line of the paytable as a table entry: a pattern and its award. */
  datatype Rule =
    | AllEqualTo(key: int, award: nat)
    | ZerosExactly(count: nat, award: nat)

  predicate Matches(rule: Rule, t: Triple) {
    match rule
    case AllEqualTo(k, _) => AllAre(t, k)
    case ZerosExactly(n, _) => ZeroCount(t) == n
  }

  /** The paytable as an ordered list of rules, in the code's order. */
  const Rules: seq<Rule> := [
    AllEqualTo(7, 700), AllEqualTo(6, 200), AllEqualTo(5, 10), AllEqualTo(4, 20),
    AllEqualTo(3, 60), AllEqualTo(2, 15), AllEqualTo(1, 40), AllEqualTo(0, 80),
    ZerosExactly(2, 5), ZerosExactly(1, 1)
  ]

  /** The award of the first rule that matches, or 0 when none does. */
  function FirstMatch(rules: seq<Rule>, t: Triple): (r: nat)
    ensures r == 0 || exists i :: 0 <= i < |rules| && Matches(rules[i], t) && rules[i].award == r
  {
    if rules == [] then 0
    else if Matches(rules[0], t) then rules[0].award
    else
      var r := FirstMatch(rules[1..], t);
      assert r != 0 ==> exists i :: 0 <= i < |rules[1..]| && Matches(rules[1..][i], t) && rules[1..][i].award == r;
      r
  }

  /** Reading the rule table from position `k`: rule `k` decides if it
      matches, otherwise the rest of the table does. */
  lemma FirstMatchAt(t: Triple, k: nat)
    requires k < |Rules|
    ensures FirstMatch(Rules[k..], t)
            == if Matches(Rules[k], t) then Rules[k].award else FirstMatch(Rules[k + 1..], t)
  {
    assert Rules[k..][1..] == Rules[k + 1..];
  }

  /** The decision chain is the rule table read first-match-wins. */
  lemma {:induction false} PayoutIsFirstMatch(t: Triple)
    ensures Payout(t) == FirstMatch(Rules, t)
  {
    assert Rules[0..] == Rules;
    FirstMatchAt(t, 0); FirstMatchAt(t, 1); FirstMatchAt(t, 2); FirstMatchAt(t, 3);
    FirstMatchAt(t, 4); FirstMatchAt(t, 5); FirstMatchAt(t, 6); FirstMatchAt(t, 7);
    FirstMatchAt(t, 8); FirstMatchAt(t, 9);
    assert Rules[10..] == [];
  }

  /** No triple matches two rules, so the order of the rules never decides a
      payout: whichever rule matches, it is the only one. */
  lemma RulesDisjoint(t: Triple, i: nat, j: nat)
    requires i < j < |Rules|
    ensures !(Matches(Rules[i], t) && Matches(Rules[j], t))
  {
  }

  /** A triple whose three values agree and lie in 0..7 always receives the
      award for that value: all bells pay 80, never the two-bell or one-bell
      award. */
  lemma AllEqualPaysItsAward(t: Triple)
    requires AllAre(t, t.a) && 0 <= t.a <= 7
    ensures Payout(t) == [80, 40, 15, 60, 20, 10, 200, 700][t.a]
    ensures Payout(t) >= 10
  {
  }

  /** Any other triple is paid by how many bells it shows. */
  lemma OtherwisePaysByBells(t: Triple)
    requires !(AllAre(t, t.a) && 0 <= t.a <= 7)
    ensures ZeroCount(t) == 2 ==> Payout(t) == 5
    ensures ZeroCount(t) == 1 ==> Payout(t) == 1
    ensures ZeroCount(t) == 0 ==> Payout(t) == 0
    ensures ZeroCount(t) <= 2
  {
  }
}
