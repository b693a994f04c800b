/** Gangs stay whole: over every run of the allocation manager each held id is
    held by exactly the units of the one topology it named. */
module GangProofs {
  import opened Wrappers
  import opened GangModel

  // ------------------------------------------------------------- taking units

  function Granted<U, V>(holders: map<U, V>, units: seq<U>, v: V): (held: map<U, V>)
    ensures held.Keys == holders.Keys + set u | u in units
    ensures forall u | u in held :: held[u] == if u in units then v else holders[u]
  {
    holders + map u | u in units :: v
  }

  lemma GrantedStep<U>(holders: map<U, Inv>, units: seq<U>, inv: Inv)
    requires units != []
    ensures Granted(holders[units[0] := inv], units[1..], inv) == Granted(holders, units, inv)
  {
    assert units == [units[0]] + units[1..];
    assert forall u :: u in units <==> u == units[0] || u in units[1..];
  }

  /** Free, distinct units are all taken. */
  lemma {:induction false} TakeAll<U>(holders: map<U, Inv>, units: seq<U>, inv: Inv)
    requires DistinctUnits(units) && Free(holders, units)
    ensures Take(holders, units, inv) == (Granted(holders, units, inv), true)
    decreases |units|
  {
    if units != [] {
      var h, rest := holders[units[0] := inv], units[1..];
      assert forall i | 0 <= i < |rest| :: rest[i] == units[i + 1];
      TakeAll(h, rest, inv);
      GrantedStep(holders, units, inv);
    } else {
      assert Granted(holders, units, inv) == holders;
    }
  }

  /** Whatever the units, taking never drops a held unit. */
  lemma {:induction false} TakeGrows<U>(holders: map<U, Inv>, units: seq<U>, inv: Inv)
    ensures holders.Keys <= Take(holders, units, inv).0.Keys
    decreases |units|
  {
    if units != [] {
      TakeGrows(holders[units[0] := inv], units[1..], inv);
    }
  }

  lemma {:induction false} WithoutIs(q: seq<Inv>, id: string)
    ensures forall x :: x in Without(q, id) <==> x in q && x.id != id
    ensures DistinctIds(q) ==> DistinctIds(Without(q, id))
  {
    if q != [] {
      var front := q[..|q| - 1];
      WithoutIs(front, id);
      assert q == front + [q[|q| - 1]];
      var w := Without(front, id);
      if DistinctIds(q) {
        assert forall i | 0 <= i < |w| :: w[i] in front;
      }
    }
  }

  /** A gang for somebody who held nothing leaves the others whole. */
  lemma GrantedWhole<U>(topologies: map<string, seq<U>>, holders: map<U, Inv>, inv: Inv)
    requires Whole(topologies, holders) && inv.wants.name in topologies
    requires Free(holders, topologies[inv.wants.name])
    requires forall u | u in holders :: holders[u].id != inv.id
    ensures Whole(topologies, Granted(holders, topologies[inv.wants.name], inv))
  {
    var units := topologies[inv.wants.name];
    var held := Granted(holders, units, inv);
    assert forall u | u in units :: held[u] == inv;
    assert forall u | u in holders :: u !in units;
    forall u | u in held ensures Gang(topologies, held, u) {
      if u in holders {
        assert Gang(topologies, holders, u);
      }
    }
  }

  /** Promoting one request keeps gangs whole and takes nothing from anybody. */
  lemma PromoteOneSound<U>(m: Manager<U>, inv: Inv)
    requires Sound(m) && inv in m.queue
    ensures Sound(PromoteOne(m, inv))
    ensures var m' := PromoteOne(m, inv);
      && m'.topologies == m.topologies
      && (forall u | u in m.holders :: u in m'.holders && m'.holders[u] == m.holders[u])
      && (forall x :: x in m'.queue <==> x in m.queue && (x != inv || Match(m, inv.wants, false) == None))
  {
    hide Whole, Take, Without;
    var name := Match(m, inv.wants, false);
    if name.Some? {
      var units := m.topologies[name.value];
      assert !Holds(m, inv.id);
      TakeAll(m.holders, units, inv);
      WithoutIs(m.queue, inv.id);
      GrantedWhole(m.topologies, m.holders, inv);
      var m' := PromoteOne(m, inv);
      assert m'.holders == Granted(m.holders, units, inv);
      assert forall u | u in m.holders :: u !in units;
      forall x | x in m'.queue ensures !Holds(m', x.id) {
        assert !Holds(m, x.id);
      }
    }
  }

  lemma PromoteEachSound<U>(m: Manager<U>, q: seq<Inv>)
    requires Sound(m) && DistinctIds(q) && forall i | 0 <= i < |q| :: q[i] in m.queue
    ensures Sound(PromoteEach(m, q))
    ensures var m' := PromoteEach(m, q);
      && m'.topologies == m.topologies
      && (forall u | u in m.holders :: u in m'.holders && m'.holders[u] == m.holders[u])
      && (forall x :: x in m'.queue ==> x in m.queue)
      && (forall x :: x in m.queue && x !in q ==> x in m'.queue)
  {
    if q != [] {
      var front, inv := q[..|q| - 1], q[|q| - 1];
      assert inv !in front;
      PromoteEachSound(m, front);
      PromoteOneSound(PromoteEach(m, front), inv);
      assert q == front + [inv];
    }
  }

  /** Promote keeps gangs whole and never takes a unit from its holder. */
  lemma PromoteSound<U>(m: Manager<U>)
    requires Sound(m)
    ensures Sound(Promote(m)) && Promote(m).topologies == m.topologies
    ensures forall u | u in m.holders :: u in Promote(m).holders && Promote(m).holders[u] == m.holders[u]
    ensures forall x | x in Promote(m).queue :: x in m.queue
  {
    PromoteEachSound(m, m.queue);
  }
}
