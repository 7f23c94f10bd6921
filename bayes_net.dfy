/**
 * The three-node Bayes net of a trio: uniform genotype priors for the parents, a Mendelian
 * conditional table for the child, read log-likelihoods per genotype, and the search for the
 * most likely (dad, mom, child) genotype assignment.
 */
module DenovoBayesNets {
  import opened Wrappers
  import opened DenovoUtil
  import ReadSummaries

  /** A conditional probability table: genotype lists (the conditioning ones first) to values. */
  type Cpt = map<seq<Genotype>, real>

  /** Node: an id, the parent nodes (None for Java's null) and the node's table. */
  datatype Node = Node(id: TrioIndividual, parents: Option<seq<Node>>, conditionalProbabilityTable: Cpt)

  /** Genotypes.values().length. */
  const NUM_GENOTYPES: nat := |GENOTYPES|

  /** Likelihoods of the reads of each member under each of its genotypes. */
  type Likelihoods = map<TrioIndividual, map<Genotype, real>>

  // ---------------------------------------------------------------------------------------
  // The tables

  /** A parent table: one singleton key per genotype, each with the uniform prior 1/10. */
  ghost predicate IsParentTable(cpt: Cpt)
  {
    && (forall key | key in cpt :: |key| == 1)
    && (forall g: Genotype :: [g] in cpt && cpt[[g]] == 1.0 / NUM_GENOTYPES as real)
  }

  /**
   * The share of a valid child of (dad, mom): what is left after every de novo child has
   * taken the mutation rate, split evenly over the valid children.
   */
  lemma DivisionCancels(x: real, v: real)
    requires v != 0.0
    ensures v * (x / v) == x
  {
  }

  /**
   * The probability each of v valid children gets: what the n - v de novo children leave,
   * (1 - rate * (n - v)), split evenly.
   */
  function Share(rate: real, v: nat, n: nat): (share: real)
    requires 1 <= v <= n
    ensures v as real * share == 1.0 - rate * (n - v) as real
  {
    var remaining := 1.0 - rate * (n - v) as real;
    DivisionCancels(remaining, v as real);
    remaining / v as real
  }

  lemma ShareFormula(rate: real, v: nat, n: nat)
    requires 1 <= v <= n
    ensures Share(rate, v, n) == (1.0 - rate * (n - v) as real) / v as real
  {
  }

  /** The table value of a valid child of (dad, mom). */
  function ValidShare(rate: real, dad: Genotype, mom: Genotype): real
  {
    ValidInheritanceCasesBounds(dad, mom);
    Share(rate, ValidInheritanceCases(dad, mom), NUM_GENOTYPES)
  }

  /** What the child table holds for (dad, mom, child). */
  function ChildProbability(rate: real, dad: Genotype, mom: Genotype, child: Genotype): real
  {
    if IsDenovo(dad, mom, child) then rate else ValidShare(rate, dad, mom)
  }

  /** A child table: exactly the (dad, mom, child) keys, valued by ChildProbability. */
  ghost predicate IsChildTable(cpt: Cpt, rate: real)
  {
    && (forall key | key in cpt :: |key| == 3)
    && (forall d: Genotype, m: Genotype, c: Genotype ::
          [d, m, c] in cpt && cpt[[d, m, c]] == ChildProbability(rate, d, m, c))
  }

  /** `x` added `n` times. */
  function Repeated(x: real, n: nat): real
  {
    if n == 0 then 0.0 else x + Repeated(x, n - 1)
  }

  lemma {:induction false} RepeatedIsProduct(x: real, n: nat)
    ensures Repeated(x, n) == n as real * x
  {
    if n > 0 {
      RepeatedIsProduct(x, n - 1);
      assert (n - 1) as real * x + x == n as real * x;
    }
  }

  function Sum(f: Genotype -> real, s: seq<Genotype>): real
  {
    if s == [] then 0.0 else f(s[0]) + Sum(f, s[1..])
  }

  /** A sum of a two-valued function is one value per element of one kind plus the other per the rest. */
  lemma {:induction false} TwoValuedSum(p: Genotype -> bool, f: Genotype -> real, a: real, b: real, s: seq<Genotype>)
    requires forall c :: f(c) == if p(c) then a else b
    ensures Sum(f, s) == Repeated(a, CountWhere(p, s)) + Repeated(b, |s| - CountWhere(p, s))
  {
    if s != [] {
      TwoValuedSum(p, f, a, b, s[1..]);
    }
  }

  /** The child table row of (dad, mom), summed over the children of `children`. */
  function RowSum(rate: real, dad: Genotype, mom: Genotype, children: seq<Genotype>): real
  {
    Sum(c => ChildProbability(rate, dad, mom, c), children)
  }

  /** A child-table entry is the share for a valid child and the rate for a de novo one. */
  lemma ChildProbabilityTwoValued(rate: real, dad: Genotype, mom: Genotype)
    ensures forall c :: ChildProbability(rate, dad, mom, c) == (if !IsDenovo(dad, mom, c) then ValidShare(rate, dad, mom) else rate)
  {
  }

  /** A row sum is the share times the valid children plus the rate times the de novo ones. */
  lemma RowSumByCount(rate: real, dad: Genotype, mom: Genotype, s: seq<Genotype>)
    ensures RowSum(rate, dad, mom, s) ==
      Repeated(ValidShare(rate, dad, mom), CountWhere(c => !IsDenovo(dad, mom, c), s)) +
      Repeated(rate, |s| - CountWhere(c => !IsDenovo(dad, mom, c), s))
  {
    ChildProbabilityTwoValued(rate, dad, mom);
    TwoValuedSum(c => !IsDenovo(dad, mom, c), c => ChildProbability(rate, dad, mom, c), ValidShare(rate, dad, mom), rate, s);
  }

  /** v copies of the share of v valid children out of n, and n - v copies of rate, add up to one. */
  lemma SharesAddUp(rate: real, v: nat, n: nat)
    requires 1 <= v <= n
    ensures Repeated(Share(rate, v, n), v) + Repeated(rate, n - v) == 1.0
  {
    RepeatedIsProduct(Share(rate, v, n), v);
    RepeatedIsProduct(rate, n - v);
    assert (n - v) as real * rate == rate * (n - v) as real;
  }

  /** For every parent pair the child probabilities sum to exactly one, whatever the rate. */
  lemma ChildRowSumsToOne(rate: real, dad: Genotype, mom: Genotype)
    ensures RowSum(rate, dad, mom, GENOTYPES) == 1.0
  {
    RowSumByCount(rate, dad, mom, GENOTYPES);
    CountValidIsCountWhere(dad, mom, GENOTYPES);
    ValidInheritanceCasesIsCount(dad, mom);
    ValidInheritanceCasesBounds(dad, mom);
    SharesAddUp(rate, ValidInheritanceCases(dad, mom), NUM_GENOTYPES);
  }

  /** A de novo child gets exactly the mutation rate; all valid children of a pair get the same share. */
  lemma ChildProbabilityShares(rate: real, dad: Genotype, mom: Genotype, c1: Genotype, c2: Genotype)
    ensures IsDenovo(dad, mom, c1) ==> ChildProbability(rate, dad, mom, c1) == rate
    ensures !IsDenovo(dad, mom, c1) && !IsDenovo(dad, mom, c2) ==>
      ChildProbability(rate, dad, mom, c1) == ChildProbability(rate, dad, mom, c2)
  {
  }

  /** Appending a child adds one to the valid count exactly when it is not de novo. */
  lemma {:induction false} CountValidSnoc(dad: Genotype, mom: Genotype, children: seq<Genotype>, c: Genotype)
    ensures CountValid(dad, mom, children + [c]) ==
      CountValid(dad, mom, children) + (if IsDenovo(dad, mom, c) then 0 else 1)
  {
    if children != [] {
      assert (children + [c])[1..] == children[1..] + [c];
      CountValidSnoc(dad, mom, children[1..], c);
    } else {
      assert [c][1..] == [];
    }
  }

  // ---------------------------------------------------------------------------------------
  // Read likelihoods

  /**
   * The weighted sum `count(a) * score(g, homozygous, a)` over the alleles of `order` that are
   * keys of `count`, accumulated in order; `score` stands for getBaseLikelihood. The product
   * is written as count(a) repeated additions (equal to it by RepeatedIsProduct).
   */
  function WeightedScore(count: map<Allele, nat>, g: Genotype, score: (Genotype, bool, Allele) -> real,
                         order: seq<Allele>): real
    decreases |order|
  {
    if order == [] then 0.0
    else
      var a := order[|order| - 1];
      var term := if a in count then Repeated(score(g, IsHomozygous(g), a), count[a]) else 0.0;
      WeightedScore(count, g, score, order[..|order| - 1]) + term
  }

  /** The read log-likelihood of genotype `g` for the allele histogram `count`. */
  function ReadLogLikelihood(count: map<Allele, nat>, g: Genotype, score: (Genotype, bool, Allele) -> real): real
  {
    WeightedScore(count, g, score, ALLELES)
  }

  /** With no reads every genotype has log-likelihood 0. */
  lemma {:induction false} EmptyCountScoresZero(g: Genotype, score: (Genotype, bool, Allele) -> real, order: seq<Allele>)
    ensures WeightedScore(map[], g, score, order) == 0.0
    decreases |order|
  {
    if order != [] {
      EmptyCountScoresZero(g, score, order[..|order| - 1]);
    }
  }

  /** No allele is listed twice in ALLELES. */
  lemma AllelesDistinct(n: nat)
    requires 0 < n <= |ALLELES|
    ensures ALLELES[n - 1] !in ALLELES[..n - 1]
  {
  }

  /** One more read showing `a` adds one score of `a` to the weighted sum over the first n alleles. */
  lemma {:induction false} WeightedScoreIncrement(count: map<Allele, nat>, g: Genotype,
                                                  score: (Genotype, bool, Allele) -> real, n: nat, a: Allele)
    requires n <= |ALLELES|
    ensures WeightedScore(count[a := ReadSummaries.Get(count, a) + 1], g, score, ALLELES[..n]) ==
      WeightedScore(count, g, score, ALLELES[..n]) + (if a in ALLELES[..n] then score(g, IsHomozygous(g), a) else 0.0)
  {
    if n > 0 {
      var order, front, last := ALLELES[..n], ALLELES[..n - 1], ALLELES[n - 1];
      assert order[..|order| - 1] == front && order[|order| - 1] == last;
      WeightedScoreIncrement(count, g, score, n - 1, a);
      var k := ReadSummaries.Get(count, a);
      var count' := count[a := k + 1];
      var x := score(g, IsHomozygous(g), last);
      var term := if last in count then Repeated(x, count[last]) else 0.0;
      var term' := if last in count' then Repeated(x, count'[last]) else 0.0;
      assert WeightedScore(count, g, score, order) == WeightedScore(count, g, score, front) + term;
      assert WeightedScore(count', g, score, order) == WeightedScore(count', g, score, front) + term';
      assert a in order <==> a in front || a == last;
      if a == last {
        AllelesDistinct(n);
        assert term == Repeated(x, k);
        assert term' == term + x;
      } else {
        assert term' == term;
      }
    }
  }

  /** The score each read contributes: its allele's score, nothing for a gap. */
  function PerReadScore(readList: seq<ReadSummaries.Read>, candidatePosition: int, g: Genotype,
                        score: (Genotype, bool, Allele) -> real): real
    decreases |readList|
  {
    if readList == [] then 0.0
    else
      var last := match ReadSummaries.BaseAtPos(readList[|readList| - 1], candidatePosition)
        case Ok(Some(a)) => score(g, IsHomozygous(g), a)
        case _ => 0.0;
      PerReadScore(readList[..|readList| - 1], candidatePosition, g, score) + last
  }

  /**
   * The weighted sum over the histogram of a read summary is the sum of the scores of the
   * individual reads: counting first and scoring afterwards loses nothing.
   */
  lemma {:induction false} HistogramScoreIsPerReadScore(readList: seq<ReadSummaries.Read>, candidatePosition: int,
                                                        g: Genotype, score: (Genotype, bool, Allele) -> real)
    requires ReadSummaries.Tally(readList, candidatePosition).Ok?
    ensures ReadLogLikelihood(ReadSummaries.Tally(readList, candidatePosition).value, g, score) ==
      PerReadScore(readList, candidatePosition, g, score)
    decreases |readList|
  {
    if readList == [] {
      EmptyCountScoresZero(g, score, ALLELES);
    } else {
      var front := readList[..|readList| - 1];
      HistogramScoreIsPerReadScore(front, candidatePosition, g, score);
      var count := ReadSummaries.Tally(front, candidatePosition).value;
      match ReadSummaries.BaseAtPos(readList[|readList| - 1], candidatePosition)
      case Ok(Some(a)) =>
        WeightedScoreIncrement(count, g, score, |ALLELES|, a);
        assert ALLELES[..|ALLELES|] == ALLELES;
      case Ok(None) =>
      case Err(_) =>
    }
  }

  // ---------------------------------------------------------------------------------------
  // The most likely trio genotype

  /** A `Likelihoods` map with a value for every member and genotype. */
  ghost predicate LikelihoodsComplete(ll: Likelihoods)
  {
    forall p: TrioIndividual :: p in ll && forall g: Genotype :: g in ll[p]
  }

  function Lookup<K>(m: map<K, real>, key: K): real
  {
    if key in m then m[key] else 0.0
  }

  function LikelihoodOf(ll: Likelihoods, p: TrioIndividual, g: Genotype): real
  {
    if p in ll then Lookup(ll[p], g) else 0.0
  }

  function TableOf(nodeMap: map<TrioIndividual, Node>, p: TrioIndividual): Cpt
  {
    if p in nodeMap then nodeMap[p].conditionalProbabilityTable else map[]
  }

  /**
   * The summed score of a triple: the read log-likelihood of each member under its genotype,
   * plus the log of each parent's prior and of the child's conditional probability
   * (getLogLikelihoodFromCPT); `logOf` stands for Math.log. Every lookup hits on a built net.
   */
  function TrioScore(nodeMap: map<TrioIndividual, Node>, ll: Likelihoods, logOf: real -> real, t: Trio): real
  {
    LikelihoodOf(ll, DAD, t.0) + LikelihoodOf(ll, MOM, t.1) + LikelihoodOf(ll, CHILD, t.2)
    + logOf(Lookup(TableOf(nodeMap, DAD), [t.0]))
    + logOf(Lookup(TableOf(nodeMap, MOM), [t.1]))
    + logOf(Lookup(TableOf(nodeMap, CHILD), [t.0, t.1, t.2]))
  }

  /** `t` has the highest score, and every triple enumerated before it scores strictly less. */
  ghost predicate IsFirstMaximum(nodeMap: map<TrioIndividual, Node>, ll: Likelihoods, logOf: real -> real, t: Trio)
  {
    && (forall u: Trio :: TrioScore(nodeMap, ll, logOf, u) <= TrioScore(nodeMap, ll, logOf, t))
    && (forall u: Trio :: TrioRank(u) < TrioRank(t) ==>
          TrioScore(nodeMap, ll, logOf, u) < TrioScore(nodeMap, ll, logOf, t))
  }

  /** The entry for the genotypes at indices (a, b, c) is present and equal to `f` of them. */
  ghost predicate Filled(cpt: Cpt, f: (Genotype, Genotype, Genotype) -> real, a: int, b: int, c: int)
  {
    && 0 <= a < NUM_GENOTYPES && 0 <= b < NUM_GENOTYPES && 0 <= c < NUM_GENOTYPES
    && var key := [GENOTYPES[a], GENOTYPES[b], GENOTYPES[c]];
       key in cpt && cpt[key] == f(GENOTYPES[a], GENOTYPES[b], GENOTYPES[c])
  }

  /** Every index triple the loops have passed holds its final value `f`. */
  ghost predicate ChildRowsBefore(cpt: Cpt, f: (Genotype, Genotype, Genotype) -> real, i: int, j: int, k: int)
  {
    forall a, b, c | 0 <= a < NUM_GENOTYPES && 0 <= b < NUM_GENOTYPES && 0 <= c < NUM_GENOTYPES &&
      IndexBefore(a, b, c, i, j, k) :: Filled(cpt, f, a, b, c)
  }

  /** The child table as a function of the trio. */
  function ChildEntries(rate: real): (Genotype, Genotype, Genotype) -> real
  {
    (d, m, c) => ChildProbability(rate, d, m, c)
  }

  /** The child entry as createConditionalProbabilityTable computes it, from the count v of valid children. */
  lemma ChildEntryFormula(rate: real, d: Genotype, m: Genotype, c: Genotype, isDenovo: bool, v: nat, value: real)
    requires isDenovo == IsDenovo(d, m, c)
    requires v == ValidInheritanceCases(d, m)
    requires 1 <= v <= NUM_GENOTYPES
    requires value == if isDenovo then rate else (1.0 - rate * (NUM_GENOTYPES - v) as real) / v as real
    ensures ChildEntries(rate)(d, m, c) == value
  {
    ShareFormula(rate, v, NUM_GENOTYPES);
  }

  /** Entering the next index triple keeps the invariant. */
  lemma ChildRowsStep(cpt: Cpt, f: (Genotype, Genotype, Genotype) -> real, i: nat, j: nat, k: nat, value: real)
    requires i < NUM_GENOTYPES && j < NUM_GENOTYPES && k < NUM_GENOTYPES
    requires ChildRowsBefore(cpt, f, i, j, k)
    requires value == f(GENOTYPES[i], GENOTYPES[j], GENOTYPES[k])
    ensures ChildRowsBefore(cpt[[GENOTYPES[i], GENOTYPES[j], GENOTYPES[k]] := value], f, i, j, k + 1)
  {
    var cpt' := cpt[[GENOTYPES[i], GENOTYPES[j], GENOTYPES[k]] := value];
    forall a, b, c | 0 <= a < NUM_GENOTYPES && 0 <= b < NUM_GENOTYPES && 0 <= c < NUM_GENOTYPES &&
      IndexBefore(a, b, c, i, j, k + 1)
      ensures Filled(cpt', f, a, b, c)
    {
      if IndexBefore(a, b, c, i, j, k) {
        assert Filled(cpt, f, a, b, c);
      }
    }
  }

  /** Finishing a row or a block of rows of the loops. */
  lemma RowsRollOver(cpt: Cpt, f: (Genotype, Genotype, Genotype) -> real, i: int, j: int)
    ensures ChildRowsBefore(cpt, f, i, j, NUM_GENOTYPES) ==> ChildRowsBefore(cpt, f, i, j + 1, 0)
    ensures ChildRowsBefore(cpt, f, i, NUM_GENOTYPES, 0) ==> ChildRowsBefore(cpt, f, i + 1, 0, 0)
  {
  }

  /** A table whose loops have run to the end, with keys of length three only, is the child table. */
  lemma ChildTableDone(cpt: Cpt, rate: real)
    requires forall key | key in cpt :: |key| == 3
    requires ChildRowsBefore(cpt, ChildEntries(rate), NUM_GENOTYPES, 0, 0)
    ensures IsChildTable(cpt, rate)
  {
    forall d: Genotype, m: Genotype, c: Genotype
      ensures [d, m, c] in cpt && cpt[[d, m, c]] == ChildProbability(rate, d, m, c)
    {
      assert Filled(cpt, ChildEntries(rate), GenotypeOrdinal(d), GenotypeOrdinal(m), GenotypeOrdinal(c));
    }
  }

  /** The score of the genotypes at indices (a, b, c); 0 outside the ten genotypes. */
  function IndexScore(nodeMap: map<TrioIndividual, Node>, ll: Likelihoods, logOf: real -> real, a: int, b: int, c: int): real
  {
    if 0 <= a < NUM_GENOTYPES && 0 <= b < NUM_GENOTYPES && 0 <= c < NUM_GENOTYPES
    then TrioScore(nodeMap, ll, logOf, (GENOTYPES[a], GENOTYPES[b], GENOTYPES[c]))
    else 0.0
  }

  /** Every index triple before (i, j, k) scores at most `bound`. */
  ghost predicate ScoresAtMost(nodeMap: map<TrioIndividual, Node>, ll: Likelihoods, logOf: real -> real,
                               bound: real, i: int, j: int, k: int)
  {
    forall a, b, c | 0 <= a < NUM_GENOTYPES && 0 <= b < NUM_GENOTYPES && 0 <= c < NUM_GENOTYPES &&
      IndexBefore(a, b, c, i, j, k) :: IndexScore(nodeMap, ll, logOf, a, b, c) <= bound
  }

  /** Every index triple before (i, j, k) scores strictly below `bound`. */
  ghost predicate ScoresBelow(nodeMap: map<TrioIndividual, Node>, ll: Likelihoods, logOf: real -> real,
                              bound: real, i: int, j: int, k: int)
  {
    forall a, b, c | 0 <= a < NUM_GENOTYPES && 0 <= b < NUM_GENOTYPES && 0 <= c < NUM_GENOTYPES &&
      IndexBefore(a, b, c, i, j, k) :: IndexScore(nodeMap, ll, logOf, a, b, c) < bound
  }

  /** The scan step when the triple at (i, j, k) does not beat the best so far. */
  lemma KeepStep(nodeMap: map<TrioIndividual, Node>, ll: Likelihoods, logOf: real -> real, bound: real, i: int, j: int, k: int)
    requires ScoresAtMost(nodeMap, ll, logOf, bound, i, j, k)
    requires IndexScore(nodeMap, ll, logOf, i, j, k) <= bound
    ensures ScoresAtMost(nodeMap, ll, logOf, bound, i, j, k + 1)
  {
  }

  /** The scan step when the triple at (i, j, k) becomes the new best. */
  lemma ReplaceStep(nodeMap: map<TrioIndividual, Node>, ll: Likelihoods, logOf: real -> real, found: bool,
                    bound: real, i: int, j: int, k: int)
    requires found ==> ScoresAtMost(nodeMap, ll, logOf, bound, i, j, k)
    requires !found ==> i == 0 && j == 0 && k == 0
    requires found ==> IndexScore(nodeMap, ll, logOf, i, j, k) > bound
    ensures ScoresAtMost(nodeMap, ll, logOf, IndexScore(nodeMap, ll, logOf, i, j, k), i, j, k + 1)
    ensures ScoresBelow(nodeMap, ll, logOf, IndexScore(nodeMap, ll, logOf, i, j, k), i, j, k)
  {
  }

  /** Finishing a row or a block of rows of the scan. */
  lemma ScoresRollOver(nodeMap: map<TrioIndividual, Node>, ll: Likelihoods, logOf: real -> real, bound: real, i: int, j: int)
    ensures ScoresAtMost(nodeMap, ll, logOf, bound, i, j, NUM_GENOTYPES) ==> ScoresAtMost(nodeMap, ll, logOf, bound, i, j + 1, 0)
    ensures ScoresAtMost(nodeMap, ll, logOf, bound, i, NUM_GENOTYPES, 0) ==> ScoresAtMost(nodeMap, ll, logOf, bound, i + 1, 0, 0)
  {
  }

  /** The enumeration rank orders triples as their index triples are ordered. */
  lemma RankIsIndexOrder(u: Trio, t: Trio)
    ensures TrioRank(u) < TrioRank(t) <==>
      IndexBefore(GenotypeOrdinal(u.0), GenotypeOrdinal(u.1), GenotypeOrdinal(u.2),
                  GenotypeOrdinal(t.0), GenotypeOrdinal(t.1), GenotypeOrdinal(t.2))
  {
  }

  /** The scan's result, stated over index triples, is the first maximum. */
  lemma ScanIsFirstMaximum(nodeMap: map<TrioIndividual, Node>, ll: Likelihoods, logOf: real -> real, bi: nat, bj: nat, bk: nat)
    requires bi < NUM_GENOTYPES && bj < NUM_GENOTYPES && bk < NUM_GENOTYPES
    requires ScoresAtMost(nodeMap, ll, logOf, IndexScore(nodeMap, ll, logOf, bi, bj, bk), NUM_GENOTYPES, 0, 0)
    requires ScoresBelow(nodeMap, ll, logOf, IndexScore(nodeMap, ll, logOf, bi, bj, bk), bi, bj, bk)
    ensures IsFirstMaximum(nodeMap, ll, logOf, (GENOTYPES[bi], GENOTYPES[bj], GENOTYPES[bk]))
  {
    var best := (GENOTYPES[bi], GENOTYPES[bj], GENOTYPES[bk]);
    OrdinalOfIndex(bi);
    OrdinalOfIndex(bj);
    OrdinalOfIndex(bk);
    forall u: Trio
      ensures TrioScore(nodeMap, ll, logOf, u) <= TrioScore(nodeMap, ll, logOf, best)
      ensures TrioRank(u) < TrioRank(best) ==> TrioScore(nodeMap, ll, logOf, u) < TrioScore(nodeMap, ll, logOf, best)
    {
      var a, b, c := GenotypeOrdinal(u.0), GenotypeOrdinal(u.1), GenotypeOrdinal(u.2);
      assert IndexScore(nodeMap, ll, logOf, a, b, c) == TrioScore(nodeMap, ll, logOf, u);
      RankIsIndexOrder(u, best);
    }
  }

  lemma RankInjective(t1: Trio, t2: Trio)
    requires TrioRank(t1) == TrioRank(t2)
    ensures t1 == t2
  {
    var a1, b1, c1 := GenotypeOrdinal(t1.0), GenotypeOrdinal(t1.1), GenotypeOrdinal(t1.2);
    var a2, b2, c2 := GenotypeOrdinal(t2.0), GenotypeOrdinal(t2.1), GenotypeOrdinal(t2.2);
    assert a1 == a2 && b1 == b2 && c1 == c2;
  }

  /** The first maximum is unique: ties go to the earliest triple of the enumeration. */
  lemma FirstMaximumUnique(nodeMap: map<TrioIndividual, Node>, ll: Likelihoods, logOf: real -> real, t1: Trio, t2: Trio)
    requires IsFirstMaximum(nodeMap, ll, logOf, t1) && IsFirstMaximum(nodeMap, ll, logOf, t2)
    ensures t1 == t2
  {
    assert TrioScore(nodeMap, ll, logOf, t1) == TrioScore(nodeMap, ll, logOf, t2);
    assert TrioRank(t1) == TrioRank(t2);
    RankInjective(t1, t2);
  }

  class DenovoBayesNet {
    const sequenceErrorRate: real
    const denovoMutationRate: real
    var nodeMap: map<TrioIndividual, Node>

    /** The net as initializeTrioNodes leaves it. */
    ghost predicate Valid()
      reads this
    {
      && DAD in nodeMap && MOM in nodeMap && CHILD in nodeMap
      && nodeMap[DAD].id == DAD && nodeMap[DAD].parents == None
      && IsParentTable(nodeMap[DAD].conditionalProbabilityTable)
      && nodeMap[MOM].id == MOM && nodeMap[MOM].parents == None
      && IsParentTable(nodeMap[MOM].conditionalProbabilityTable)
      && nodeMap[CHILD].id == CHILD && nodeMap[CHILD].parents == Some([nodeMap[DAD], nodeMap[MOM]])
      && IsChildTable(nodeMap[CHILD].conditionalProbabilityTable, denovoMutationRate)
    }

    /** DenovoBayesNet(sequenceErrorRate, denovoMutationRate): the rates, then the three nodes. */
    constructor (sequenceErrorRate: real, denovoMutationRate: real)
      ensures this.sequenceErrorRate == sequenceErrorRate
      ensures this.denovoMutationRate == denovoMutationRate
      ensures Valid()
    {
      this.sequenceErrorRate := sequenceErrorRate;
      this.denovoMutationRate := denovoMutationRate;
      nodeMap := map[];
      new;
      InitializeTrioNodes();
    }

    /** initializeTrioNodes: DAD and MOM without parents, CHILD with parents [DAD node, MOM node]. */
    method InitializeTrioNodes()
      modifies this
      ensures Valid()
    {
      var dadTable := CreateConditionalProbabilityTable(DAD);
      AddNode(Node(DAD, None, dadTable));
      var momTable := CreateConditionalProbabilityTable(MOM);
      AddNode(Node(MOM, None, momTable));
      var childParents := [nodeMap[DAD], nodeMap[MOM]];
      var childTable := CreateConditionalProbabilityTable(CHILD);
      AddNode(Node(CHILD, Some(childParents), childTable));
    }

    /** addNode: store the node under its id, replacing any node with that id. */
    method AddNode(node: Node)
      modifies this
      ensures nodeMap == old(nodeMap)[node.id := node]
    {
      nodeMap := nodeMap[node.id := node];
    }

    /**
     * createConditionalProbabilityTable: the uniform prior for a parent; for the child, per
     * parent pair a first pass counting the valid children and a second filling in the row.
     */
    method CreateConditionalProbabilityTable(individual: TrioIndividual) returns (cpt: Cpt)
      ensures individual != CHILD ==> IsParentTable(cpt)
      ensures individual == CHILD ==> IsChildTable(cpt, denovoMutationRate)
    {
      cpt := map[];
      if individual == DAD || individual == MOM {
        for i := 0 to |GENOTYPES|
          invariant forall key | key in cpt :: |key| == 1 && GenotypeOrdinal(key[0]) < i
          invariant forall g: Genotype | GenotypeOrdinal(g) < i ::
            [g] in cpt && cpt[[g]] == 1.0 / NUM_GENOTYPES as real
        {
          var genoType := GENOTYPES[i];
          OrdinalOfIndex(i);
          cpt := cpt[[genoType] := 1.0 / NUM_GENOTYPES as real];
        }
      } else {
        for i := 0 to |GENOTYPES|
          invariant forall key | key in cpt :: |key| == 3
          invariant ChildRowsBefore(cpt, ChildEntries(denovoMutationRate), i, 0, 0)
        {
          for j := 0 to |GENOTYPES|
            invariant forall key | key in cpt :: |key| == 3
            invariant ChildRowsBefore(cpt, ChildEntries(denovoMutationRate), i, j, 0)
          {
            cpt := FillChildRow(cpt, i, j);
          }
          RowsRollOver(cpt, ChildEntries(denovoMutationRate), i, NUM_GENOTYPES);
        }
        ChildTableDone(cpt, denovoMutationRate);
      }
    }

    /** The two passes over the child genotypes for one parent pair, by index. */
    method FillChildRow(cpt0: Cpt, i: nat, j: nat) returns (cpt: Cpt)
      requires i < NUM_GENOTYPES && j < NUM_GENOTYPES
      requires forall key | key in cpt0 :: |key| == 3
      requires ChildRowsBefore(cpt0, ChildEntries(denovoMutationRate), i, j, 0)
      ensures forall key | key in cpt :: |key| == 3
      ensures ChildRowsBefore(cpt, ChildEntries(denovoMutationRate), i, j + 1, 0)
    {
      var validInheritanceCases := CountValidInheritanceCases(GENOTYPES[i], GENOTYPES[j]);
      ValidInheritanceCasesBounds(GENOTYPES[i], GENOTYPES[j]);
      cpt := cpt0;
      for k := 0 to |GENOTYPES|
        invariant forall key | key in cpt :: |key| == 3
        invariant ChildRowsBefore(cpt, ChildEntries(denovoMutationRate), i, j, k)
      {
        cpt := PutChildEntry(cpt, i, j, k, validInheritanceCases);
      }
      RowsRollOver(cpt, ChildEntries(denovoMutationRate), i, j);
    }

    /** One step of the second pass: the entry for the genotypes at indices (i, j, k). */
    method PutChildEntry(cpt0: Cpt, i: nat, j: nat, k: nat, validInheritanceCases: nat) returns (cpt: Cpt)
      requires i < NUM_GENOTYPES && j < NUM_GENOTYPES && k < NUM_GENOTYPES
      requires validInheritanceCases == ValidInheritanceCases(GENOTYPES[i], GENOTYPES[j])
      requires 1 <= validInheritanceCases <= NUM_GENOTYPES
      requires forall key | key in cpt0 :: |key| == 3
      requires ChildRowsBefore(cpt0, ChildEntries(denovoMutationRate), i, j, k)
      ensures forall key | key in cpt :: |key| == 3
      ensures ChildRowsBefore(cpt, ChildEntries(denovoMutationRate), i, j, k + 1)
    {
      var genoTypeDad, genoTypeMom, genoTypeChild := GENOTYPES[i], GENOTYPES[j], GENOTYPES[k];
      var cptKey := [genoTypeDad, genoTypeMom, genoTypeChild];
      var isDenovo := CheckTrioGenoTypeIsDenovo(cptKey);
      var value := if isDenovo then denovoMutationRate
        else (1.0 - denovoMutationRate * (NUM_GENOTYPES - validInheritanceCases) as real) / validInheritanceCases as real;
      ChildEntryFormula(denovoMutationRate, genoTypeDad, genoTypeMom, genoTypeChild, isDenovo, validInheritanceCases, value);
      ChildRowsStep(cpt0, ChildEntries(denovoMutationRate), i, j, k, value);
      cpt := cpt0[cptKey := value];
    }

    /** The first pass of a row: how many child genotypes are valid inheritances. */
    method CountValidInheritanceCases(genoTypeDad: Genotype, genoTypeMom: Genotype) returns (validInheritanceCases: nat)
      ensures validInheritanceCases == ValidInheritanceCases(genoTypeDad, genoTypeMom)
    {
      validInheritanceCases := 0;
      for k := 0 to |GENOTYPES|
        invariant validInheritanceCases == CountValid(genoTypeDad, genoTypeMom, GENOTYPES[..k])
      {
        var isDenovo := CheckTrioGenoTypeIsDenovo([genoTypeDad, genoTypeMom, GENOTYPES[k]]);
        if !isDenovo {
          validInheritanceCases := validInheritanceCases + 1;
        }
        CountValidSnoc(genoTypeDad, genoTypeMom, GENOTYPES[..k], GENOTYPES[k]);
        assert GENOTYPES[..k + 1] == GENOTYPES[..k] + [GENOTYPES[k]];
      }
      assert GENOTYPES[..|GENOTYPES|] == GENOTYPES;
      ValidInheritanceCasesIsCount(genoTypeDad, genoTypeMom);
    }

    /**
     * getGenoTypeLogLikelihood: for every genotype, the count-weighted sum of the per-base
     * scores of the alleles in the histogram; homozygosity is read off the genotype's name.
     */
    method GetGenoTypeLogLikelihood(count: map<Allele, nat>, score: (Genotype, bool, Allele) -> real)
      returns (genotypeLogLikelihood: map<Genotype, real>)
      ensures forall g: Genotype :: g in genotypeLogLikelihood
      ensures forall g: Genotype :: genotypeLogLikelihood[g] == ReadLogLikelihood(count, g, score)
    {
      genotypeLogLikelihood := map[];
      for i := 0 to |GENOTYPES|
        invariant forall g: Genotype :: g in genotypeLogLikelihood <==> GenotypeOrdinal(g) < i
        invariant forall g | g in genotypeLogLikelihood :: genotypeLogLikelihood[g] == ReadLogLikelihood(count, g, score)
      {
        var genoType := GENOTYPES[i];
        var name := GenotypeName(genoType);
        var isHomozygous := name[0..1] == name[1..2];
        HomozygousIffOneAllele(genoType);
        assert isHomozygous == IsHomozygous(genoType) by {
          assert name[0..1] == [name[0]] && name[1..2] == [name[1]];
        }
        var readlogLikelihood := 0.0;
        for k := 0 to |ALLELES|
          invariant readlogLikelihood == WeightedScore(count, genoType, score, ALLELES[..k])
        {
          var base := ALLELES[k];
          assert ALLELES[..k + 1][..k] == ALLELES[..k];
          if base in count {
            RepeatedIsProduct(score(genoType, isHomozygous, base), count[base]);
            readlogLikelihood := readlogLikelihood + count[base] as real * score(genoType, isHomozygous, base);
          }
        }
        assert ALLELES[..|ALLELES|] == ALLELES;
        genotypeLogLikelihood := genotypeLogLikelihood[genoType := readlogLikelihood];
      }
    }

    /** getIndividualLogLikelihood: the genotype log-likelihoods of each member's counts. */
    method GetIndividualLogLikelihood(readSummaryMap: map<TrioIndividual, map<Allele, nat>>,
                                      score: (Genotype, bool, Allele) -> real)
      returns (individualLogLikelihood: Likelihoods)
      requires forall p: TrioIndividual :: p in readSummaryMap
      ensures LikelihoodsComplete(individualLogLikelihood)
      ensures forall p: TrioIndividual, g: Genotype ::
        individualLogLikelihood[p][g] == ReadLogLikelihood(readSummaryMap[p], g, score)
    {
      individualLogLikelihood := map[];
      for i := 0 to |TRIO|
        invariant forall p | p in individualLogLikelihood :: p in TRIO[..i]
        invariant forall p | p in individualLogLikelihood :: forall g: Genotype :: g in individualLogLikelihood[p]
        invariant forall p, g: Genotype | p in individualLogLikelihood ::
          individualLogLikelihood[p][g] == ReadLogLikelihood(readSummaryMap[p], g, score)
        invariant forall p | p in TRIO[..i] :: p in individualLogLikelihood
      {
        var trioIndividual := TRIO[i];
        var genoTypeLogLikelihood := GetGenoTypeLogLikelihood(readSummaryMap[trioIndividual], score);
        individualLogLikelihood := individualLogLikelihood[trioIndividual := genoTypeLogLikelihood];
      }
      assert TRIO[..|TRIO|] == TRIO;
      forall p: TrioIndividual ensures p in individualLogLikelihood {
        TrioListsEveryMember(p);
      }
    }

    /**
     * getMaxGenoType: enumerate dad, mom and child genotypes in declaration order and keep a
     * triple only when its score is strictly above the best so far (initially -infinity,
     * modelled by `found` being false).
     */
    method GetMaxGenoType(individualLogLikelihood: Likelihoods, logOf: real -> real)
      returns (maxGenoType: seq<Genotype>)
      requires Valid() && LikelihoodsComplete(individualLogLikelihood)
      ensures |maxGenoType| == 3
      ensures IsFirstMaximum(nodeMap, individualLogLikelihood, logOf, (maxGenoType[0], maxGenoType[1], maxGenoType[2]))
    {
      var ll := individualLogLikelihood;
      var found := false;
      var maxLogLikelihood := 0.0;
      maxGenoType := [];
      ghost var bi: nat, bj: nat, bk: nat := 0, 0, 0;
      for i := 0 to |GENOTYPES|
        invariant found <==> i > 0
        invariant found ==> MaxInvariant(ll, logOf, maxLogLikelihood, maxGenoType, bi, bj, bk, i, 0, 0)
      {
        var genoTypeDad := GENOTYPES[i];
        for j := 0 to |GENOTYPES|
          invariant found <==> i > 0 || j > 0
          invariant found ==> MaxInvariant(ll, logOf, maxLogLikelihood, maxGenoType, bi, bj, bk, i, j, 0)
        {
          var genoTypeMom := GENOTYPES[j];
          for k := 0 to |GENOTYPES|
            invariant found <==> i > 0 || j > 0 || k > 0
            invariant found ==> MaxInvariant(ll, logOf, maxLogLikelihood, maxGenoType, bi, bj, bk, i, j, k)
          {
            var genoTypeChild := GENOTYPES[k];
            var logLikelihood := TrioLogLikelihood(ll, logOf, i, j, k);
            if !found || logLikelihood > maxLogLikelihood {
              ReplaceStep(nodeMap, ll, logOf, found, maxLogLikelihood, i, j, k);
              found := true;
              maxLogLikelihood := logLikelihood;
              maxGenoType := [genoTypeDad, genoTypeMom, genoTypeChild];
              bi, bj, bk := i, j, k;
            } else {
              KeepStep(nodeMap, ll, logOf, maxLogLikelihood, i, j, k);
            }
          }
          ScoresRollOver(nodeMap, ll, logOf, maxLogLikelihood, i, j);
        }
        ScoresRollOver(nodeMap, ll, logOf, maxLogLikelihood, i, NUM_GENOTYPES);
      }
      ScanIsFirstMaximum(nodeMap, ll, logOf, bi, bj, bk);
    }

    /**
     * The score of one trio in getMaxGenoType: the three read log-likelihoods plus the log
     * of the three table entries, added in the order the Java code adds them.
     */
    method TrioLogLikelihood(ll: Likelihoods, logOf: real -> real, i: nat, j: nat, k: nat)
      returns (logLikelihood: real)
      requires Valid() && LikelihoodsComplete(ll)
      requires i < NUM_GENOTYPES && j < NUM_GENOTYPES && k < NUM_GENOTYPES
      ensures logLikelihood == IndexScore(nodeMap, ll, logOf, i, j, k)
    {
      var genoTypeDad, genoTypeMom, genoTypeChild := GENOTYPES[i], GENOTYPES[j], GENOTYPES[k];
      logLikelihood := 0.0;
      logLikelihood := logLikelihood + ll[DAD][genoTypeDad];
      logLikelihood := logLikelihood + ll[MOM][genoTypeMom];
      logLikelihood := logLikelihood + ll[CHILD][genoTypeChild];
      logLikelihood := logLikelihood + logOf(nodeMap[DAD].conditionalProbabilityTable[[genoTypeDad]]);
      logLikelihood := logLikelihood + logOf(nodeMap[MOM].conditionalProbabilityTable[[genoTypeMom]]);
      logLikelihood := logLikelihood +
        logOf(nodeMap[CHILD].conditionalProbabilityTable[[genoTypeDad, genoTypeMom, genoTypeChild]]);
    }

    /** What the scan knows once it has a best triple: its indices, its score, and the bounds. */
    ghost predicate MaxInvariant(ll: Likelihoods, logOf: real -> real, maxLogLikelihood: real,
                                 maxGenoType: seq<Genotype>, bi: nat, bj: nat, bk: nat, i: int, j: int, k: int)
      reads this
    {
      && bi < NUM_GENOTYPES && bj < NUM_GENOTYPES && bk < NUM_GENOTYPES
      && maxGenoType == [GENOTYPES[bi], GENOTYPES[bj], GENOTYPES[bk]]
      && maxLogLikelihood == IndexScore(nodeMap, ll, logOf, bi, bj, bk)
      && ScoresAtMost(nodeMap, ll, logOf, maxLogLikelihood, i, j, k)
      && ScoresBelow(nodeMap, ll, logOf, maxLogLikelihood, bi, bj, bk)
    }
  }
}
