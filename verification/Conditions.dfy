/** The status conditions of a Kubernetes object: at most one of each type. */
module Conditions {

  datatype Condition<M> = Condition(ctype: string, status: bool, time: nat, reason: string, message: M)

  /** Overwrite the first condition of the same type, or append. */
  function SetCondition<M>(cs: seq<Condition<M>>, c: Condition<M>): seq<Condition<M>> {
    if cs == [] then [c]
    else if cs[0].ctype == c.ctype then [c] + cs[1..]
    else [cs[0]] + SetCondition(cs[1..], c)
  }

  predicate HasType<M>(cs: seq<Condition<M>>, t: string) {
    exists i :: 0 <= i < |cs| && cs[i].ctype == t
  }

  predicate UniqueTypes<M>(cs: seq<Condition<M>>) {
    forall i, j :: 0 <= i < j < |cs| ==> cs[i].ctype != cs[j].ctype
  }

  lemma {:induction false} SetAt<M>(cs: seq<Condition<M>>, c: Condition<M>, k: nat)
    requires k <= |cs| && forall i :: 0 <= i < k ==> cs[i].ctype != c.ctype
    requires k < |cs| ==> cs[k].ctype == c.ctype
    ensures SetCondition(cs, c) == if k < |cs| then cs[k := c] else cs + [c]
  {
    if cs != [] && k > 0 {
      SetAt(cs[1..], c, k - 1);
    }
  }

  /** The position of the first condition of a type, or the length. */
  function Find<M>(cs: seq<Condition<M>>, t: string): (k: nat)
    ensures k <= |cs| && (k < |cs| ==> cs[k].ctype == t)
    ensures forall i :: 0 <= i < k ==> cs[i].ctype != t
  {
    if cs == [] || cs[0].ctype == t then 0 else
    var k := Find(cs[1..], t);
    assert forall i :: 1 <= i < k + 1 ==> cs[i] == cs[1..][i - 1];
    k + 1
  }

  /** Setting a condition keeps the types unique and every other condition as it is. */
  lemma SetConditionKeeps<M>(cs: seq<Condition<M>>, c: Condition<M>)
    requires UniqueTypes(cs)
    ensures var r := SetCondition(cs, c);
            && UniqueTypes(r) && c in r
            && (forall d :: d in r ==> d == c || d in cs)
            && (forall d :: d in cs && d.ctype != c.ctype ==> d in r)
  {
    var k := Find(cs, c.ctype);
    SetAt(cs, c, k);
    var r := SetCondition(cs, c);
    assert r[k] == c;
    forall d | d in cs && d.ctype != c.ctype
      ensures d in r
    {
      var i :| 0 <= i < |cs| && cs[i] == d;
      assert r[i] == d;
    }
  }

  lemma HasTypeFind<M>(cs: seq<Condition<M>>, t: string)
    ensures HasType(cs, t) <==> Find(cs, t) < |cs|
  {}

  lemma SetHasTypes<M>(cs: seq<Condition<M>>, c: Condition<M>, t: string)
    ensures HasType(SetCondition(cs, c), t) <==> HasType(cs, t) || c.ctype == t
  {
    var k := Find(cs, c.ctype);
    SetAt(cs, c, k);
    var r := SetCondition(cs, c);
    assert r[k] == c;
    if HasType(cs, t) && t != c.ctype {
      var i :| 0 <= i < |cs| && cs[i].ctype == t;
      assert r[i].ctype == t;
    }
  }

  /** Setting the same verdict again, later, only moves the time of that condition. */
  lemma SetAgain<M>(cs: seq<Condition<M>>, c: Condition<M>)
    requires HasType(cs, c.ctype) && cs[Find(cs, c.ctype)].(time := c.time) == c
    ensures var r := SetCondition(cs, c);
            |r| == |cs| && forall i :: 0 <= i < |cs| ==> r[i] == cs[i].(time := r[i].time)
  {
    HasTypeFind(cs, c.ctype);
    SetAt(cs, c, Find(cs, c.ctype));
  }

  lemma FindIs<M>(cs: seq<Condition<M>>, t: string, k: nat)
    requires k < |cs| && cs[k].ctype == t && forall i :: 0 <= i < k ==> cs[i].ctype != t
    ensures Find(cs, t) == k
  {}

  lemma FindSet<M>(cs: seq<Condition<M>>, c: Condition<M>)
    ensures var r := SetCondition(cs, c); Find(r, c.ctype) == Find(cs, c.ctype) < |r| && r[Find(r, c.ctype)] == c
  {
    var k := Find(cs, c.ctype);
    SetAt(cs, c, k);
    FindIs(SetCondition(cs, c), c.ctype, k);
  }

  /** Setting another type does not move or change the condition. */
  lemma FindKept<M>(cs: seq<Condition<M>>, c: Condition<M>, t: string)
    requires Find(cs, t) < |cs| && c.ctype != t
    ensures var r, k := SetCondition(cs, c), Find(cs, t); Find(r, t) == k < |r| && r[k] == cs[k]
  {
    SetAt(cs, c, Find(cs, c.ctype));
    FindIs(SetCondition(cs, c), t, Find(cs, t));
  }
}
