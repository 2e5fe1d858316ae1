/**
  Axioms over a set of individuals (same-individual and different-individuals
  axioms): the individuals are kept as a sorted set without repetition, and
  two such axioms are equal when the shared axiom equality holds and their
  individual sets coincide.

  Individuals are represented by their position in the OWL object order, so
  the natural order of `int` stands for `compareTo`.
 */
module NaryIndividualAxiom {

  type Individual = int

  predicate StrictlySorted(xs: seq<Individual>) {
    forall i, j :: 0 <= i < j < |xs| ==> xs[i] < xs[j]
  }

  /** Inserts one individual into a strictly sorted sequence, as a tree set does. */
  function Insert(xs: seq<Individual>, x: Individual): (r: seq<Individual>)
    requires StrictlySorted(xs)
    ensures StrictlySorted(r)
    ensures forall y :: y in r <==> y in xs || y == x
    ensures x in xs ==> r == xs
    ensures x !in xs ==> |r| == |xs| + 1
  {
    if xs == [] then [x]
    else if x < xs[0] then
      PrependSorted(x, xs);
      [x] + xs
    else if x == xs[0] then xs
    else
      var rest := Insert(xs[1..], x);
      PrependSorted(xs[0], rest);
      [xs[0]] + rest
  }

  lemma PrependSorted(x: Individual, xs: seq<Individual>)
    requires StrictlySorted(xs)
    requires forall y :: y in xs ==> x < y
    ensures StrictlySorted([x] + xs)
  {
    var r := [x] + xs;
    forall i, j | 0 <= i < j < |r| ensures r[i] < r[j] {
      assert r[j] == xs[j - 1] && xs[j - 1] in xs;
      if i > 0 {
        assert r[i] == xs[i - 1];
      }
    }
  }

  /** The sorted set built from the individuals handed to the constructor, in any order. */
  function SortedSet(xs: seq<Individual>): (r: seq<Individual>)
    ensures StrictlySorted(r)
    ensures forall y :: y in r <==> y in xs
    ensures |r| <= |xs|
  {
    if xs == [] then [] else Insert(SortedSet(xs[..|xs| - 1]), xs[|xs| - 1])
  }

  /** A strictly sorted sequence is determined by its elements. */
  lemma {:induction false} SortedUnique(xs: seq<Individual>, ys: seq<Individual>)
    requires StrictlySorted(xs) && StrictlySorted(ys)
    requires forall y :: y in xs <==> y in ys
    ensures xs == ys
  {
    assert xs != [] ==> xs[0] in xs;
    assert ys != [] ==> ys[0] in ys;
    if xs != [] && ys != [] {
      assert xs[0] == ys[0] by {
        assert xs[0] in ys && ys[0] in xs;
        var i :| 0 <= i < |ys| && ys[i] == xs[0];
        var j :| 0 <= j < |xs| && xs[j] == ys[0];
        assert ys[0] <= ys[i] && xs[0] <= xs[j];
      }
      forall y ensures y in xs[1..] <==> y in ys[1..] {
        if y in xs[1..] {
          assert y in ys && y != ys[0];
        }
        if y in ys[1..] {
          assert y in xs && y != xs[0];
        }
      }
      SortedUnique(xs[1..], ys[1..]);
      assert xs == [xs[0]] + xs[1..];
      assert ys == [ys[0]] + ys[1..];
    }
  }

  /** The stored individuals depend only on the set of individuals given, not their order or repetition. */
  lemma SortedSetCanonical(xs: seq<Individual>, ys: seq<Individual>)
    requires forall y :: y in xs <==> y in ys
    ensures SortedSet(xs) == SortedSet(ys)
  {
    SortedUnique(SortedSet(xs), SortedSet(ys));
  }

  /** An n-ary individual axiom; `annotations` stands for the parent class's state. */
  datatype NaryAxiom = NaryAxiom(individuals: seq<Individual>, annotations: seq<int>)

  /** Any OWL object an axiom may be compared with. */
  datatype OwlObject = NaryIndividual(axiom: NaryAxiom) | OtherObject

  /** The constructor: the individuals are copied into an unmodifiable sorted set. */
  function New(individuals: seq<Individual>, annotations: seq<int>): (r: NaryAxiom)
    ensures StrictlySorted(r.individuals)
    ensures forall y :: y in r.individuals <==> y in individuals
    ensures r.annotations == annotations
  {
    NaryAxiom(SortedSet(individuals), annotations)
  }

  /** `getIndividuals`: the stored set, in ascending order. */
  function GetIndividuals(ax: NaryAxiom): (r: seq<Individual>)
    requires StrictlySorted(ax.individuals)
    ensures StrictlySorted(r)
    ensures forall y :: y in r <==> y in ax.individuals
  {
    ax.individuals
  }

  /**
    `equals`: `parentEquals` is the verdict of the inherited axiom equality;
    the other object must then be an n-ary individual axiom with the same
    individuals.
   */
  function Equals(parentEquals: bool, self: NaryAxiom, other: OwlObject): (r: bool)
    requires StrictlySorted(self.individuals)
    requires other.NaryIndividual? ==> StrictlySorted(other.axiom.individuals)
    ensures !parentEquals || other.OtherObject? ==> !r
    ensures parentEquals && other.NaryIndividual? ==>
              (r <==> forall y :: y in self.individuals <==> y in other.axiom.individuals)
  {
    if parentEquals then
      if !other.NaryIndividual? then false
      else
        var same := GetIndividuals(other.axiom) == GetIndividuals(self);
        assert same <==> forall y :: y in self.individuals <==> y in other.axiom.individuals by {
          if forall y :: y in self.individuals <==> y in other.axiom.individuals {
            SortedUnique(self.individuals, other.axiom.individuals);
          }
        }
        same
    else false
  }

  /** Two axioms built from the same individuals, in any order, are equal when the inherited equality holds. */
  lemma EqualsIgnoresOrder(xs: seq<Individual>, ys: seq<Individual>, anns: seq<int>)
    requires forall y :: y in xs <==> y in ys
    ensures Equals(true, New(xs, anns), NaryIndividual(New(ys, anns)))
    ensures New(xs, anns) == New(ys, anns)
  {
    SortedSetCanonical(xs, ys);
  }
}
