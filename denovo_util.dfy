/**
 * Trio genotype rules of the de novo caller: the four alleles, the ten unordered diploid
 * genotypes, the Mendelian-inheritance table `isDenovoMap`, the inference-method lookup and
 * the two small map/list helpers.
 */
module DenovoUtil {
  import opened Wrappers
  import JavaText

  /** The three members of a trio, in declaration order. */
  datatype TrioIndividual = DAD | MOM | CHILD

  const TRIO: seq<TrioIndividual> := [DAD, MOM, CHILD]

  function MemberName(p: TrioIndividual): string
  {
    match p
    case DAD => "DAD"
    case MOM => "MOM"
    case CHILD => "CHILD"
  }

  lemma TrioListsEveryMember(p: TrioIndividual)
    ensures p in TRIO
  {
  }

  // ---------------------------------------------------------------------------------------
  // Alleles

  datatype Allele = A | C | G | T

  const ALL_ALLELES: set<Allele> := {A, C, G, T}

  /** Allele.values(), in declaration order (also the key order of a TreeMap over alleles). */
  const ALLELES: seq<Allele> := [A, C, G, T]

  function AlleleOrdinal(a: Allele): nat
  {
    match a
    case A => 0
    case C => 1
    case G => 2
    case T => 3
  }

  function AlleleName(a: Allele): char
  {
    match a
    case A => 'A'
    case C => 'C'
    case G => 'G'
    case T => 'T'
  }

  /** Allele.valueOf: the allele of that name, or None where Java throws IllegalArgumentException. */
  function AlleleValueOf(s: string): (r: Option<Allele>)
    ensures forall a: Allele :: s == [AlleleName(a)] ==> r == Some(a)
    ensures r.Some? ==> s == [AlleleName(r.value)]
  {
    if s == "A" then Some(A)
    else if s == "C" then Some(C)
    else if s == "G" then Some(G)
    else if s == "T" then Some(T)
    else None
  }

  /** Allele.getMutants: every allele other than `x`. */
  function GetMutants(x: Allele): (r: set<Allele>)
    ensures x !in r && |r| == 3
    ensures forall y: Allele :: y != x ==> y in r
  {
    var r := ALL_ALLELES - {x};
    assert r == match x
      case A => {C, G, T}
      case C => {A, G, T}
      case G => {A, C, T}
      case T => {A, C, G};
    r
  }

  /**
   * Allele.getTransversion(all). The Java method is an instance method that ignores its
   * receiver and switches on its argument.
   */
  function GetTransversion(all: Allele): Allele
  {
    match all
    case A => G
    case G => A
    case C => T
    case T => C
  }

  /** Allele.getTransition(all); like getTransversion it ignores its receiver. */
  function GetTransition(all: Allele): set<Allele>
  {
    match all
    case A => {C, T}
    case G => {C, T}
    case C => {A, G}
    case T => {A, G}
  }

  /** getTransversion is an involution without a fixed point. */
  lemma TransversionInvolution(x: Allele)
    ensures GetTransversion(GetTransversion(x)) == x
    ensures GetTransversion(x) != x
  {
  }

  /** An allele, its transversion and its two transitions partition the four alleles. */
  lemma TransitionPartition(x: Allele)
    ensures GetTransition(x) + {x, GetTransversion(x)} == ALL_ALLELES
    ensures |GetTransition(x)| == 2
    ensures x !in GetTransition(x) && GetTransversion(x) !in GetTransition(x)
  {
  }

  // ---------------------------------------------------------------------------------------
  // Genotypes

  /** The ten unordered genotypes, named by their alleles in allele order. */
  datatype Genotype = AA | AC | AG | AT | CC | CG | CT | GG | GT | TT

  /** Genotype.values(), in declaration order. */
  const GENOTYPES: seq<Genotype> := [AA, AC, AG, AT, CC, CG, CT, GG, GT, TT]

  function GenotypeOrdinal(g: Genotype): (i: nat)
    ensures i < |GENOTYPES| && GENOTYPES[i] == g
  {
    match g
    case AA => 0 case AC => 1 case AG => 2 case AT => 3 case CC => 4
    case CG => 5 case CT => 6 case GG => 7 case GT => 8 case TT => 9
  }

  /** The ordinal of the i-th constant is i. */
  lemma OrdinalOfIndex(i: int)
    requires 0 <= i < |GENOTYPES|
    ensures GenotypeOrdinal(GENOTYPES[i]) == i
  {
  }

  /** The constants of the enum are listed without repeats. */
  lemma GenotypesDistinct()
    ensures forall i, j :: 0 <= i < j < |GENOTYPES| ==> GENOTYPES[i] != GENOTYPES[j]
  {
    forall i, j | 0 <= i < j < |GENOTYPES| ensures GENOTYPES[i] != GENOTYPES[j] {
      OrdinalOfIndex(i);
      OrdinalOfIndex(j);
    }
  }

  /** The allele arguments given to each enum constant; a homozygous one repeats its allele. */
  function FirstAllele(g: Genotype): Allele
  {
    match g
    case AA => A case AC => A case AG => A case AT => A
    case CC => C case CG => C case CT => C
    case GG => G case GT => G
    case TT => T
  }

  function SecondAllele(g: Genotype): Allele
  {
    match g
    case AA => A case AC => C case AG => G case AT => T
    case CC => C case CG => G case CT => T
    case GG => G case GT => T
    case TT => T
  }

  /** Genotype.name(): the two allele letters. */
  function GenotypeName(g: Genotype): (s: string)
    ensures |s| == 2
  {
    [AlleleName(FirstAllele(g)), AlleleName(SecondAllele(g))]
  }

  /** Genotype.getAlleleSet(). */
  function AlleleSet(g: Genotype): set<Allele>
  {
    {FirstAllele(g), SecondAllele(g)}
  }

  /** Genotype.isHomozygous(): the zygosity each enum constant is declared with. */
  function IsHomozygous(g: Genotype): bool
  {
    g == AA || g == CC || g == GG || g == TT
  }

  /** Genotype.containsAllele(base). */
  function ContainsAllele(g: Genotype, base: Allele): bool
  {
    base in AlleleSet(g)
  }

  lemma HomozygousIffOneAllele(g: Genotype)
    ensures IsHomozygous(g) <==> |AlleleSet(g)| == 1
    ensures IsHomozygous(g) <==> GenotypeName(g)[0] == GenotypeName(g)[1]
  {
  }

  /** Every genotype is named in allele order. */
  lemma GenotypeNameSorted(g: Genotype)
    ensures AlleleOrdinal(FirstAllele(g)) <= AlleleOrdinal(SecondAllele(g))
  {
  }

  /** The letter of an allele occurs in a genotype's name exactly when the genotype carries it. */
  lemma NameContainsAllele(g: Genotype, a: Allele)
    ensures AlleleName(a) in GenotypeName(g) <==> ContainsAllele(g, a)
  {
  }

  /** Distinct genotypes carry distinct allele sets. */
  lemma AlleleSetInjective(g1: Genotype, g2: Genotype)
    ensures AlleleSet(g1) == AlleleSet(g2) ==> g1 == g2
  {
    if AlleleSet(g1) == AlleleSet(g2) {
      assert FirstAllele(g1) in AlleleSet(g2) && SecondAllele(g1) in AlleleSet(g2);
      assert FirstAllele(g2) in AlleleSet(g1) && SecondAllele(g2) in AlleleSet(g1);
    }
  }

  /** Genotype.valueOf(name): the constant of that name, or None where Java throws. */
  function GenotypeValueOf(name: string): (r: Option<Genotype>)
    ensures r.Some? ==> GenotypeName(r.value) == name
    ensures r.None? ==> forall g: Genotype :: GenotypeName(g) != name
  {
    GenotypesListEvery();
    GenotypeValueOfIn(GENOTYPES, name)
  }

  /** GENOTYPES, the order of Genotype.values(), lists every genotype. */
  lemma GenotypesListEvery()
    ensures forall g: Genotype :: g in GENOTYPES
  {
    forall g: Genotype ensures g in GENOTYPES {
      assert GENOTYPES[GenotypeOrdinal(g)] == g;
    }
  }

  function GenotypeValueOfIn(gs: seq<Genotype>, name: string): (r: Option<Genotype>)
    ensures r.Some? ==> GenotypeName(r.value) == name && r.value in gs
    ensures r.None? ==> forall g :: g in gs ==> GenotypeName(g) != name
  {
    if gs == [] then None
    else if GenotypeName(gs[0]) == name then Some(gs[0])
    else GenotypeValueOfIn(gs[1..], name)
  }

  /**
   * Genotype.valueOfPairAlleles(a, b): sort the two alleles by ordinal and look up the
   * genotype named by their letters.
   */
  function ValueOfPairAlleles(a: Allele, b: Allele): (g: Genotype)
    ensures AlleleSet(g) == {a, b}
    ensures IsHomozygous(g) <==> a == b
  {
    var lo := if AlleleOrdinal(a) <= AlleleOrdinal(b) then a else b;
    var hi := if AlleleOrdinal(a) <= AlleleOrdinal(b) then b else a;
    var found := GenotypeValueOf([AlleleName(lo), AlleleName(hi)]);
    assert found.Some? by {
      var want := PairGenotype(lo, hi);
      assert GenotypeName(want) == [AlleleName(lo), AlleleName(hi)];
      assert want in GENOTYPES;
    }
    NameDeterminesGenotype(found.value, lo, hi);
    found.value
  }

  /** The genotype whose name lists `lo` then `hi`, for alleles in ordinal order. */
  function PairGenotype(lo: Allele, hi: Allele): (g: Genotype)
    requires AlleleOrdinal(lo) <= AlleleOrdinal(hi)
    ensures FirstAllele(g) == lo && SecondAllele(g) == hi
  {
    match (lo, hi)
    case (A, A) => AA case (A, C) => AC case (A, G) => AG case (A, T) => AT
    case (C, C) => CC case (C, G) => CG case (C, T) => CT
    case (G, G) => GG case (G, T) => GT
    case (T, T) => TT
  }

  lemma NameDeterminesGenotype(g: Genotype, lo: Allele, hi: Allele)
    requires GenotypeName(g) == [AlleleName(lo), AlleleName(hi)]
    ensures FirstAllele(g) == lo && SecondAllele(g) == hi
  {
    assert AlleleName(FirstAllele(g)) == AlleleName(lo);
    assert AlleleName(SecondAllele(g)) == AlleleName(hi);
  }

  /** valueOfPairAlleles does not depend on the order of its arguments. */
  lemma ValueOfPairAllelesSymmetric(a: Allele, b: Allele)
    ensures ValueOfPairAlleles(a, b) == ValueOfPairAlleles(b, a)
  {
    AlleleSetInjective(ValueOfPairAlleles(a, b), ValueOfPairAlleles(b, a));
  }

  // ---------------------------------------------------------------------------------------
  // Mendelian inheritance

  /**
   * The entry of isDenovoMap for (dad, mom, child): with c1, c2 the letters of the child's
   * name, the child is NOT de novo when mom's name contains c1 and dad's contains c2, or
   * mom's contains c2 and dad's contains c1.
   */
  function IsDenovo(dad: Genotype, mom: Genotype, child: Genotype): bool
  {
    var c1 := GenotypeName(child)[0];
    var c2 := GenotypeName(child)[1];
    var alleleInParents := c1 in GenotypeName(mom) && c2 in GenotypeName(dad);
    var alleleInParentsMirror := c2 in GenotypeName(mom) && c1 in GenotypeName(dad);
    !(alleleInParents || alleleInParentsMirror)
  }

  /** A child is not de novo exactly when one of its alleles can come from each parent. */
  lemma IsDenovoByAlleles(dad: Genotype, mom: Genotype, child: Genotype)
    ensures !IsDenovo(dad, mom, child) <==>
      (ContainsAllele(mom, FirstAllele(child)) && ContainsAllele(dad, SecondAllele(child))) ||
      (ContainsAllele(mom, SecondAllele(child)) && ContainsAllele(dad, FirstAllele(child)))
  {
    NameContainsAllele(mom, FirstAllele(child));
    NameContainsAllele(mom, SecondAllele(child));
    NameContainsAllele(dad, FirstAllele(child));
    NameContainsAllele(dad, SecondAllele(child));
  }

  /** Swapping the parents never changes the verdict. */
  lemma IsDenovoParentSymmetric(dad: Genotype, mom: Genotype, child: Genotype)
    ensures IsDenovo(dad, mom, child) == IsDenovo(mom, dad, child)
  {
    IsDenovoByAlleles(dad, mom, child);
    IsDenovoByAlleles(mom, dad, child);
  }

  /** A child built from one allele of each parent is never de novo. */
  lemma InheritedChildIsNotDenovo(dad: Genotype, mom: Genotype, x: Allele, y: Allele)
    requires ContainsAllele(mom, x) && ContainsAllele(dad, y)
    ensures !IsDenovo(dad, mom, ValueOfPairAlleles(x, y))
  {
    var c := ValueOfPairAlleles(x, y);
    IsDenovoByAlleles(dad, mom, c);
    assert FirstAllele(c) in {x, y} && SecondAllele(c) in {x, y};
    if x != y {
      assert FirstAllele(c) != SecondAllele(c) by { HomozygousIffOneAllele(c); }
    }
  }

  /** The cases of DenovoUtilTest.testCheckTrioGenoTypeIsDenovo. */
  lemma IsDenovoExamples()
    ensures IsDenovo(AA, AA, TT) && IsDenovo(AA, AA, AT) && IsDenovo(AA, AC, TT)
    ensures IsDenovo(AA, AC, CC) && IsDenovo(AA, AC, AT) && IsDenovo(AA, CG, AA)
    ensures IsDenovo(AC, GT, GG) && IsDenovo(AC, GT, AA) && IsDenovo(AC, GT, AC)
    ensures IsDenovo(AC, GT, GT)
    ensures !IsDenovo(AC, GT, AT) && !IsDenovo(AC, GT, CT) && !IsDenovo(AC, GT, AG)
    ensures !IsDenovo(AC, GT, CG) && !IsDenovo(AA, AC, AA) && !IsDenovo(AA, AC, AC)
    ensures !IsDenovo(AC, AC, AA) && !IsDenovo(AC, AC, AC) && !IsDenovo(AC, AC, CC)
  {
  }

  type Trio = (Genotype, Genotype, Genotype)

  /** Position of a (dad, mom, child) triple in the dad-mom-child nested enumeration. */
  function TrioRank(t: Trio): nat
  {
    100 * GenotypeOrdinal(t.0) + 10 * GenotypeOrdinal(t.1) + GenotypeOrdinal(t.2)
  }

  /** Index triple (a, b, c) comes before (i, j, k) in the dad-mom-child loop order. */
  predicate IndexBefore(a: int, b: int, c: int, i: int, j: int, k: int)
  {
    a < i || (a == i && b < j) || (a == i && b == j && c < k)
  }

  /** The verdict of the genotypes at indices (a, b, c) has been recorded. */
  predicate Recorded(isDenovoMap: map<Trio, bool>, a: int, b: int, c: int)
  {
    && 0 <= a < |GENOTYPES| && 0 <= b < |GENOTYPES| && 0 <= c < |GENOTYPES|
    && var t := (GENOTYPES[a], GENOTYPES[b], GENOTYPES[c]);
       t in isDenovoMap && isDenovoMap[t] == IsDenovo(t.0, t.1, t.2)
  }

  /** Every index triple before (i, j, k) has been recorded. */
  predicate RecordedBefore(isDenovoMap: map<Trio, bool>, i: int, j: int, k: int)
  {
    forall a, b, c | 0 <= a < |GENOTYPES| && 0 <= b < |GENOTYPES| && 0 <= c < |GENOTYPES| &&
      IndexBefore(a, b, c, i, j, k) :: Recorded(isDenovoMap, a, b, c)
  }

  /** Recording the triple at (i, j, k) extends the invariant to (i, j, k + 1). */
  lemma RecordStep(isDenovoMap: map<Trio, bool>, i: nat, j: nat, k: nat)
    requires i < |GENOTYPES| && j < |GENOTYPES| && k < |GENOTYPES|
    requires RecordedBefore(isDenovoMap, i, j, k)
    ensures var t := (GENOTYPES[i], GENOTYPES[j], GENOTYPES[k]);
      RecordedBefore(isDenovoMap[t := IsDenovo(t.0, t.1, t.2)], i, j, k + 1)
  {
    var t := (GENOTYPES[i], GENOTYPES[j], GENOTYPES[k]);
    var m := isDenovoMap[t := IsDenovo(t.0, t.1, t.2)];
    forall a, b, c | 0 <= a < |GENOTYPES| && 0 <= b < |GENOTYPES| && 0 <= c < |GENOTYPES| &&
      IndexBefore(a, b, c, i, j, k + 1)
      ensures Recorded(m, a, b, c)
    {
      if IndexBefore(a, b, c, i, j, k) {
        assert Recorded(isDenovoMap, a, b, c);
      }
    }
  }

  /**
   * The static initialiser of DenovoUtil: a triple loop over Genotype.values() that records
   * the verdict of every (dad, mom, child) triple.
   */
  method BuildIsDenovoMap() returns (isDenovoMap: map<Trio, bool>)
    ensures forall t: Trio :: t in isDenovoMap
    ensures forall t: Trio :: isDenovoMap[t] == IsDenovo(t.0, t.1, t.2)
  {
    isDenovoMap := map[];
    for i := 0 to |GENOTYPES|
      invariant RecordedBefore(isDenovoMap, i, 0, 0)
    {
      var genotypeDad := GENOTYPES[i];
      for j := 0 to |GENOTYPES|
        invariant RecordedBefore(isDenovoMap, i, j, 0)
      {
        var genotypeMom := GENOTYPES[j];
        for k := 0 to |GENOTYPES|
          invariant RecordedBefore(isDenovoMap, i, j, k)
        {
          var genotypeChild := GENOTYPES[k];
          RecordStep(isDenovoMap, i, j, k);
          isDenovoMap := isDenovoMap[(genotypeDad, genotypeMom, genotypeChild) :=
            IsDenovo(genotypeDad, genotypeMom, genotypeChild)];
        }
      }
    }
    forall t: Trio ensures t in isDenovoMap && isDenovoMap[t] == IsDenovo(t.0, t.1, t.2) {
      assert Recorded(isDenovoMap, GenotypeOrdinal(t.0), GenotypeOrdinal(t.1), GenotypeOrdinal(t.2));
    }
  }

  /**
   * checkTrioGenoTypeIsDenovo(List): the list holds dad, mom and child at positions 0, 1
   * and 2; a shorter list makes List.get throw, so callers pass at least three.
   */
  function CheckTrioGenoTypeIsDenovo(trioGenotypeList: seq<Genotype>): (isDenovo: bool)
    requires |trioGenotypeList| >= 3
    ensures isDenovo == IsDenovo(trioGenotypeList[0], trioGenotypeList[1], trioGenotypeList[2])
  {
    var genotypeDad := trioGenotypeList[0];
    var genotypeMom := trioGenotypeList[1];
    var genotypeChild := trioGenotypeList[2];
    IsDenovo(genotypeDad, genotypeMom, genotypeChild)
  }

  /** Number of child genotypes (among `children`) that are valid inheritances from the parents. */
  function CountValid(dad: Genotype, mom: Genotype, children: seq<Genotype>): (n: nat)
    ensures n <= |children|
  {
    if children == [] then 0
    else (if IsDenovo(dad, mom, children[0]) then 0 else 1) + CountValid(dad, mom, children[1..])
  }

  /** The child genotypes that are valid inheritances from the parents. */
  function ValidChildren(dad: Genotype, mom: Genotype): set<Genotype>
  {
    set c | c in GENOTYPES && !IsDenovo(dad, mom, c)
  }

  /** How many of the ten genotypes a child of (dad, mom) can have without a mutation. */
  function ValidInheritanceCases(dad: Genotype, mom: Genotype): nat
  {
    |ValidChildren(dad, mom)|
  }

  /** Number of genotypes of `s` that satisfy `p`. */
  function CountWhere(p: Genotype -> bool, s: seq<Genotype>): (n: nat)
    ensures n <= |s|
  {
    if s == [] then 0 else (if p(s[0]) then 1 else 0) + CountWhere(p, s[1..])
  }

  /** Over a list without repeats, the count of the genotypes satisfying `p` is the size of their set. */
  lemma {:induction false} CountWhereIsSize(p: Genotype -> bool, s: seq<Genotype>)
    requires forall i, j :: 0 <= i < j < |s| ==> s[i] != s[j]
    ensures CountWhere(p, s) == |set c | c in s && p(c)|
  {
    if s != [] {
      var h, t := s[0], s[1..];
      assert forall i, j :: 0 <= i < j < |t| ==> t[i] != t[j] by {
        forall i, j | 0 <= i < j < |t| ensures t[i] != t[j] {
          assert t[i] == s[i + 1] && t[j] == s[j + 1];
        }
      }
      CountWhereIsSize(p, t);
      var rest := set c | c in t && p(c);
      assert h !in t by {
        forall i | 0 <= i < |t| ensures t[i] != h {
          assert t[i] == s[i + 1];
        }
      }
      assert s == [h] + t;
      SelectedOfCons(p, h, t);
    }
  }

  /** The genotypes of h :: t satisfying `p`: those of t, and h when it satisfies `p`. */
  lemma SelectedOfCons(p: Genotype -> bool, h: Genotype, t: seq<Genotype>)
    ensures (set c | c in [h] + t && p(c)) == (set c | c in t && p(c)) + (if p(h) then {h} else {})
  {
    var all, rest := set c | c in [h] + t && p(c), set c | c in t && p(c);
    forall c ensures c in all <==> c in rest || (c == h && p(h)) {
      assert c in [h] + t <==> c == h || c in t;
    }
  }

  /** CountValid is CountWhere with the test "not de novo". */
  lemma {:induction false} CountValidIsCountWhere(dad: Genotype, mom: Genotype, s: seq<Genotype>)
    ensures CountValid(dad, mom, s) == CountWhere(c => !IsDenovo(dad, mom, c), s)
  {
    if s != [] {
      CountValidIsCountWhere(dad, mom, s[1..]);
    }
  }

  /** Over a list without repeats, the count of valid children is the size of their set. */
  lemma CountValidIsSize(dad: Genotype, mom: Genotype, children: seq<Genotype>)
    requires forall i, j :: 0 <= i < j < |children| ==> children[i] != children[j]
    ensures CountValid(dad, mom, children) == |set c | c in children && !IsDenovo(dad, mom, c)|
  {
    var p := c => !IsDenovo(dad, mom, c);
    CountValidIsCountWhere(dad, mom, children);
    CountWhereIsSize(p, children);
    SelectedValid(dad, mom, children);
  }

  /** Selecting with the lambda of CountValidIsCountWhere picks the valid children. */
  lemma SelectedValid(dad: Genotype, mom: Genotype, children: seq<Genotype>)
    ensures (set c | c in children && (c => !IsDenovo(dad, mom, c))(c)) ==
            (set c | c in children && !IsDenovo(dad, mom, c))
  {
    var p := c => !IsDenovo(dad, mom, c);
    var viaP := set c | c in children && p(c);
    var valid := set c | c in children && !IsDenovo(dad, mom, c);
    forall c ensures c in viaP <==> c in valid {
      assert p(c) == !IsDenovo(dad, mom, c);
    }
  }

  /** The counting pass over all genotypes finds exactly ValidInheritanceCases. */
  lemma ValidInheritanceCasesIsCount(dad: Genotype, mom: Genotype)
    ensures CountValid(dad, mom, GENOTYPES) == ValidInheritanceCases(dad, mom)
  {
    GenotypesDistinct();
    CountValidIsSize(dad, mom, GENOTYPES);
  }

  /**
   * Every parent pair has between one and four valid child genotypes, so the division by
   * validInheritanceCases in the child probability table never divides by zero.
   */
  lemma ValidInheritanceCasesBounds(dad: Genotype, mom: Genotype)
    ensures 1 <= ValidInheritanceCases(dad, mom) <= 4
  {
    var c := ValueOfPairAlleles(FirstAllele(mom), FirstAllele(dad));
    InheritedChildIsNotDenovo(dad, mom, FirstAllele(mom), FirstAllele(dad));
    assert c in GENOTYPES by { var i := GenotypeOrdinal(c); }
    assert c in ValidChildren(dad, mom);
    ValidInheritanceCasesAtMostFour(dad, mom);
  }

  /** The (at most four) genotypes formed from one allele of mom and one allele of dad. */
  function PairChildren(dad: Genotype, mom: Genotype): (s: set<Genotype>)
    ensures |s| <= 4
  {
    {ValueOfPairAlleles(FirstAllele(mom), FirstAllele(dad)),
     ValueOfPairAlleles(FirstAllele(mom), SecondAllele(dad)),
     ValueOfPairAlleles(SecondAllele(mom), FirstAllele(dad)),
     ValueOfPairAlleles(SecondAllele(mom), SecondAllele(dad))}
  }

  lemma PairInPairChildren(dad: Genotype, mom: Genotype, x: Allele, y: Allele)
    requires ContainsAllele(mom, x) && ContainsAllele(dad, y)
    ensures ValueOfPairAlleles(x, y) in PairChildren(dad, mom)
  {
    var pc := PairChildren(dad, mom);
    if x == FirstAllele(mom) {
      if y == FirstAllele(dad) {
        assert ValueOfPairAlleles(FirstAllele(mom), FirstAllele(dad)) in pc;
      } else {
        assert ValueOfPairAlleles(FirstAllele(mom), SecondAllele(dad)) in pc;
      }
    } else {
      if y == FirstAllele(dad) {
        assert ValueOfPairAlleles(SecondAllele(mom), FirstAllele(dad)) in pc;
      } else {
        assert ValueOfPairAlleles(SecondAllele(mom), SecondAllele(dad)) in pc;
      }
    }
  }

  lemma InheritedChildIsPair(dad: Genotype, mom: Genotype, c: Genotype)
    requires ContainsAllele(mom, FirstAllele(c)) && ContainsAllele(dad, SecondAllele(c))
    ensures c in PairChildren(dad, mom)
  {
    var c1, c2 := FirstAllele(c), SecondAllele(c);
    var p := ValueOfPairAlleles(c1, c2);
    assert AlleleSet(p) == {c1, c2} == AlleleSet(c);
    AlleleSetInjective(c, p);
    PairInPairChildren(dad, mom, c1, c2);
  }

  lemma MirrorInheritedChildIsPair(dad: Genotype, mom: Genotype, c: Genotype)
    requires ContainsAllele(mom, SecondAllele(c)) && ContainsAllele(dad, FirstAllele(c))
    ensures c in PairChildren(dad, mom)
  {
    var c1, c2 := FirstAllele(c), SecondAllele(c);
    var p := ValueOfPairAlleles(c2, c1);
    assert AlleleSet(p) == {c1, c2} == AlleleSet(c);
    AlleleSetInjective(c, p);
    PairInPairChildren(dad, mom, c2, c1);
  }

  /** A subset is no larger than its superset. */
  lemma {:induction false} SubsetSize<T>(a: set<T>, b: set<T>)
    requires a <= b
    ensures |a| <= |b|
  {
    if a != {} {
      var x :| x in a;
      SubsetSize(a - {x}, b - {x});
    }
  }

  lemma ValidInheritanceCasesAtMostFour(dad: Genotype, mom: Genotype)
    ensures ValidInheritanceCases(dad, mom) <= 4
  {
    forall c | c in GENOTYPES && !IsDenovo(dad, mom, c)
      ensures c in PairChildren(dad, mom)
    {
      IsDenovoByAlleles(dad, mom, c);
      if ContainsAllele(mom, FirstAllele(c)) && ContainsAllele(dad, SecondAllele(c)) {
        InheritedChildIsPair(dad, mom, c);
      } else {
        MirrorInheritedChildIsPair(dad, mom, c);
      }
    }
    SubsetSize(ValidChildren(dad, mom), PairChildren(dad, mom));
  }

  // ---------------------------------------------------------------------------------------
  // Inference methods

  datatype InferenceMethod = MAP | BAYES | LRT

  const INFERENCE_METHODS: seq<InferenceMethod> := [MAP, BAYES, LRT]

  function MethodName(m: InferenceMethod): string
  {
    match m
    case MAP => "MAP"
    case BAYES => "BAYES"
    case LRT => "LRT"
  }

  /** The lower-cased name of each method, as String.toLowerCase renders it. */
  function LoweredMethodName(m: InferenceMethod): (s: string)
    ensures s == JavaText.Lower(MethodName(m))
  {
    assert JavaText.Lower("MAP") == "map";
    assert JavaText.Lower("BAYES") == "bayes";
    assert JavaText.Lower("LRT") == "lrt";
    match m
    case MAP => "map"
    case BAYES => "bayes"
    case LRT => "lrt"
  }

  /** Distinct methods have distinct lower-cased names. */
  lemma LoweredNameDetermines(m: InferenceMethod, target: string)
    requires LoweredMethodName(m) == target
    ensures forall m': InferenceMethod :: JavaText.Lower(MethodName(m')) == target <==> m' == m
  {
    forall m': InferenceMethod ensures JavaText.Lower(MethodName(m')) == target <==> m' == m {
      assert JavaText.Lower(MethodName(m')) == LoweredMethodName(m');
    }
  }

  /** Every method is in INFERENCE_METHODS, so failing all three means failing every one. */
  lemma NoLoweredNameMatches(target: string)
    requires forall k :: 0 <= k < |INFERENCE_METHODS| ==> LoweredMethodName(INFERENCE_METHODS[k]) != target
    ensures forall m: InferenceMethod :: JavaText.Lower(MethodName(m)) != target
  {
    forall m: InferenceMethod ensures JavaText.Lower(MethodName(m)) != target {
      assert JavaText.Lower(MethodName(m)) == LoweredMethodName(m);
      var k := match m case MAP => 0 case BAYES => 1 case LRT => 2;
      assert INFERENCE_METHODS[k] == m;
    }
  }

  /**
   * InferenceMethod.selectMethodfromString: the first method whose lower-cased name equals the
   * lower-cased argument; otherwise IllegalArgumentException("Unknown method " + method).
   */
  method SelectMethodfromString(method_: string) returns (r: Result<InferenceMethod, string>)
    ensures forall m: InferenceMethod ::
      r == Ok(m) <==> JavaText.Lower(MethodName(m)) == JavaText.Lower(method_)
    ensures r.Err? ==> r.error == "Unknown method " + method_
  {
    var target := JavaText.Lower(method_);
    for i := 0 to |INFERENCE_METHODS|
      invariant forall k :: 0 <= k < i ==> LoweredMethodName(INFERENCE_METHODS[k]) != target
    {
      var inferMethod := INFERENCE_METHODS[i];
      if LoweredMethodName(inferMethod) == target {
        LoweredNameDetermines(inferMethod, target);
        return Ok(inferMethod);
      }
    }
    NoLoweredNameMatches(target);
    return Err("Unknown method " + method_);
  }

  // ---------------------------------------------------------------------------------------
  // Map and list helpers

  /**
   * getReversedMap: put (value, key) for every entry, in the map's iteration order (left
   * unspecified, as for a HashMap); when two keys share a value, the one visited last wins.
   */
  method GetReversedMap<K, V(==)>(m: map<K, V>) returns (reversed: map<V, K>)
    ensures reversed.Keys == m.Values
    ensures forall v | v in reversed :: reversed[v] in m && m[reversed[v]] == v
    ensures Injective(m) ==> forall k | k in m :: reversed[m[k]] == k
  {
    reversed := map[];
    var remaining := m.Keys;
    while remaining != {}
      invariant remaining <= m.Keys
      invariant reversed.Keys == set k | k in m.Keys - remaining :: m[k]
      invariant forall v | v in reversed :: reversed[v] in m.Keys - remaining && m[reversed[v]] == v
      decreases remaining
    {
      var key :| key in remaining;
      reversed := reversed[m[key] := key];
      remaining := remaining - {key};
    }
    assert m.Values == set k | k in m.Keys :: m[k];
  }

  ghost predicate Injective<K, V>(m: map<K, V>)
  {
    forall k1, k2 | k1 in m && k2 in m && m[k1] == m[k2] :: k1 == k2
  }

  /** getGenotype: a call's genotype list is absent exactly when it contains -1 (a no-call). */
  function GetGenotype(genoType: seq<int>): (r: Option<seq<int>>)
    ensures r.None? <==> -1 in genoType
    ensures r.Some? ==> r.value == genoType
  {
    if -1 in genoType then None else Some(genoType)
  }
}
