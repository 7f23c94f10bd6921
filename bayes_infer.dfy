/**
 * The inference front end: a Bayes net built once, on the first call, and then used to pick
 * the most likely trio genotype for each candidate's read counts.
 */
module BayesInfers {
  import opened Wrappers
  import opened DenovoUtil
  import opened JavaText
  import opened ReadSummaries
  import opened DenovoBayesNets

  /** The two command-line rates the net is built from. */
  datatype Rates = Rates(sequenceErrorRate: real, denovoMutationRate: real)

  /** The counts held by each member's ReadSummary. */
  function CountsOf(readSummaryMap: map<TrioIndividual, ReadSummary>): (counts: map<TrioIndividual, map<Allele, nat>>)
    reads readSummaryMap.Values
    ensures counts.Keys == readSummaryMap.Keys
    ensures forall p | p in readSummaryMap :: counts[p] == readSummaryMap[p].count
  {
    map p | p in readSummaryMap :: readSummaryMap[p].count
  }

  /** The genotype log-likelihoods of every member, as getIndividualLogLikelihood computes them. */
  function LikelihoodsOf(counts: map<TrioIndividual, map<Allele, nat>>, score: (Genotype, bool, Allele) -> real): (ll: Likelihoods)
    requires forall p: TrioIndividual :: p in counts
    ensures LikelihoodsComplete(ll)
    ensures forall p: TrioIndividual, g: Genotype :: ll[p][g] == ReadLogLikelihood(counts[p], g, score)
  {
    map p: TrioIndividual :: map g: Genotype :: ReadLogLikelihood(counts[p], g, score)
  }

  /** "NAME:{counts}" for each member of `members`, in that order. */
  function MemberEntries(counts: map<TrioIndividual, map<Allele, nat>>, members: seq<TrioIndividual>): (r: seq<string>)
    requires forall p: TrioIndividual :: p in counts
    ensures |r| == |members|
    ensures forall i :: 0 <= i < |members| ==> r[i] == MemberName(members[i]) + ":" + CountToString(counts[members[i]])
  {
    if members == [] then []
    else
      var tail := members[1..];
      assert forall i :: 1 <= i < |members| ==> members[i] == tail[i - 1];
      [MemberName(members[0]) + ":" + CountToString(counts[members[0]])] + MemberEntries(counts, tail)
  }

  /**
   * The readCounts summary of infer: the members in TreeMap (declaration) order, each as
   * "NAME:" and its ReadSummary's rendering, joined by ';'.
   */
  function ReadCounts(counts: map<TrioIndividual, map<Allele, nat>>): string
    requires forall p: TrioIndividual :: p in counts
  {
    Join(MemberEntries(counts, TRIO), ";")
  }

  /** Three parts joined: the first, the separator, the second, the separator, the third. */
  lemma JoinThree(x: string, y: string, z: string, sep: string)
    ensures Join([x, y, z], sep) == x + sep + y + sep + z
  {
    assert [x, y, z][1..] == [y, z] && [y, z][1..] == [z];
    assert Join([y, z], sep) == y + sep + z;
    assert x + sep + (y + sep + z) == x + sep + y + sep + z;
  }

  /** Three fields without ';', the last non-empty, split back apart. */
  lemma SplitThree(x: string, y: string, z: string)
    requires ';' !in x && ';' !in y && ';' !in z && z != ""
    ensures JavaSplit(x + ";" + y + ";" + z, ';') == [x, y, z]
  {
    var s := x + ";" + y + ";" + z;
    assert s == x + [';'] + (y + [';'] + z);
    SplitOnPrefix(x, ';', y + [';'] + z);
    SplitOnPrefix(y, ';', z);
    assert SplitOn(s, ';') == [x, y, z];
    assert ';' in s by { assert s[|x|] == ';'; }
  }

  /** The entries of the three members, in declaration order. */
  lemma TrioEntries(counts: map<TrioIndividual, map<Allele, nat>>)
    requires forall p: TrioIndividual :: p in counts
    ensures MemberEntries(counts, TRIO) ==
      ["DAD:" + CountToString(counts[DAD]), "MOM:" + CountToString(counts[MOM]), "CHILD:" + CountToString(counts[CHILD])]
  {
    var e := MemberEntries(counts, TRIO);
    assert MemberName(DAD) + ":" == "DAD:" && MemberName(MOM) + ":" == "MOM:" && MemberName(CHILD) + ":" == "CHILD:";
    assert e[0] == "DAD:" + CountToString(counts[DAD]);
    assert e[1] == "MOM:" + CountToString(counts[MOM]);
    assert e[2] == "CHILD:" + CountToString(counts[CHILD]);
    assert e == [e[0], e[1], e[2]];
  }

  /** The summary is DAD's entry, then MOM's, then CHILD's. */
  lemma ReadCountsLayout(counts: map<TrioIndividual, map<Allele, nat>>)
    requires forall p: TrioIndividual :: p in counts
    ensures ReadCounts(counts) ==
      ("DAD:" + CountToString(counts[DAD])) + ";" + ("MOM:" + CountToString(counts[MOM])) + ";" +
      ("CHILD:" + CountToString(counts[CHILD]))
  {
    TrioEntries(counts);
    var x, y, z := "DAD:" + CountToString(counts[DAD]), "MOM:" + CountToString(counts[MOM]), "CHILD:" + CountToString(counts[CHILD]);
    JoinThree(x, y, z, ";");
  }

  /** Splitting the summary on ';' gives back the three member entries. */
  lemma ReadCountsSplit(counts: map<TrioIndividual, map<Allele, nat>>)
    requires forall p: TrioIndividual :: p in counts
    ensures JavaSplit(ReadCounts(counts), ';') == MemberEntries(counts, TRIO)
  {
    TrioEntries(counts);
    var x, y, z := "DAD:" + CountToString(counts[DAD]), "MOM:" + CountToString(counts[MOM]), "CHILD:" + CountToString(counts[CHILD]);
    CountToStringNoChar(counts[DAD], ';');
    CountToStringNoChar(counts[MOM], ';');
    CountToStringNoChar(counts[CHILD], ';');
    JoinThree(x, y, z, ";");
    SplitThree(x, y, z);
  }

  /**
   * BayesInfer's static state: the net and the flag saying it has been built. The Java class
   * keeps both in static fields; here they are the fields of one object.
   */
  class BayesInfer {
    var bn: DenovoBayesNet?
    var isInitialized: bool

    /** Once initialised there is a fully built net. */
    ghost predicate Valid()
      reads this, bn
    {
      isInitialized ==> bn != null && bn.Valid()
    }

    /** The class as loaded: no net, not initialised. */
    constructor ()
      ensures Valid() && !isInitialized && bn == null
    {
      bn := null;
      isInitialized := false;
    }

    /**
     * Init: a no-op once initialised; otherwise build a net from the rates, add the DAD and MOM
     * nodes without parents and the CHILD node with parents [DAD node, MOM node], and set the flag.
     */
    method Init(cmdLine: Rates)
      requires Valid()
      modifies this
      ensures Valid() && isInitialized
      ensures old(isInitialized) ==> bn == old(bn)
      ensures !old(isInitialized) ==>
        fresh(bn) && bn.sequenceErrorRate == cmdLine.sequenceErrorRate &&
        bn.denovoMutationRate == cmdLine.denovoMutationRate
    {
      if isInitialized {
        return;
      }
      var net := new DenovoBayesNet(cmdLine.sequenceErrorRate, cmdLine.denovoMutationRate);
      AddTrioNodes(net);
      bn := net;
      isInitialized := true;
    }

    /**
     * infer: initialise if needed, take the first maximum of the trio scores under the read
     * likelihoods, and report whether that triple is de novo, with the readCounts summary.
     * `scoreFor` stands for getBaseLikelihood at a given sequence error rate and `logOf` for
     * Math.log.
     */
    method Infer(readSummaryMap: map<TrioIndividual, ReadSummary>, cmdLine: Rates,
                 scoreFor: real -> ((Genotype, bool, Allele) -> real), logOf: real -> real)
      returns (checkTrioGenoTypeIsDenovo: bool, maxTrioGenoType: seq<Genotype>, readCounts: string)
      requires Valid()
      requires forall p: TrioIndividual :: p in readSummaryMap
      modifies this
      ensures Valid() && isInitialized
      ensures old(isInitialized) ==> bn == old(bn)
      ensures !old(isInitialized) ==>
        fresh(bn) && bn.sequenceErrorRate == cmdLine.sequenceErrorRate &&
        bn.denovoMutationRate == cmdLine.denovoMutationRate
      ensures |maxTrioGenoType| == 3
      ensures IsFirstMaximum(bn.nodeMap, LikelihoodsOf(CountsOf(readSummaryMap), scoreFor(bn.sequenceErrorRate)),
                             logOf, (maxTrioGenoType[0], maxTrioGenoType[1], maxTrioGenoType[2]))
      ensures checkTrioGenoTypeIsDenovo == IsDenovo(maxTrioGenoType[0], maxTrioGenoType[1], maxTrioGenoType[2])
      ensures readCounts == ReadCounts(CountsOf(readSummaryMap))
    {
      if !isInitialized {
        Init(cmdLine);
      }
      checkTrioGenoTypeIsDenovo, maxTrioGenoType, readCounts := InferOn(bn, readSummaryMap, scoreFor, logOf);
    }
  }

  /** The body of infer once the net is built: the first maximum, its de novo test and the summary. */
  method InferOn(bn: DenovoBayesNet, readSummaryMap: map<TrioIndividual, ReadSummary>,
                 scoreFor: real -> ((Genotype, bool, Allele) -> real), logOf: real -> real)
    returns (checkTrioGenoTypeIsDenovo: bool, maxTrioGenoType: seq<Genotype>, readCounts: string)
    requires bn.Valid() && forall p: TrioIndividual :: p in readSummaryMap
    ensures |maxTrioGenoType| == 3
    ensures IsFirstMaximum(bn.nodeMap, LikelihoodsOf(CountsOf(readSummaryMap), scoreFor(bn.sequenceErrorRate)),
                           logOf, (maxTrioGenoType[0], maxTrioGenoType[1], maxTrioGenoType[2]))
    ensures checkTrioGenoTypeIsDenovo == IsDenovo(maxTrioGenoType[0], maxTrioGenoType[1], maxTrioGenoType[2])
    ensures readCounts == ReadCounts(CountsOf(readSummaryMap))
  {
    var counts := CountsOf(readSummaryMap);
    maxTrioGenoType := MaxTrioGenoType(bn, counts, scoreFor(bn.sequenceErrorRate), logOf);
    checkTrioGenoTypeIsDenovo := CheckTrioGenoTypeIsDenovo(maxTrioGenoType);
    readCounts := ReadCounts(counts);
  }

  /** The node additions of Init: DAD and MOM without parents, CHILD with parents [DAD, MOM]. */
  method AddTrioNodes(net: DenovoBayesNet)
    modifies net
    ensures net.Valid()
  {
    var dadTable := net.CreateConditionalProbabilityTable(DAD);
    net.AddNode(Node(DAD, None, dadTable));
    var momTable := net.CreateConditionalProbabilityTable(MOM);
    net.AddNode(Node(MOM, None, momTable));
    var childParents := [net.nodeMap[DAD], net.nodeMap[MOM]];
    var childTable := net.CreateConditionalProbabilityTable(CHILD);
    net.AddNode(Node(CHILD, Some(childParents), childTable));
  }

  /** The likelihood and maximisation steps of infer, on a built net. */
  method MaxTrioGenoType(bn: DenovoBayesNet, counts: map<TrioIndividual, map<Allele, nat>>,
                         score: (Genotype, bool, Allele) -> real, logOf: real -> real)
    returns (maxTrioGenoType: seq<Genotype>)
    requires bn.Valid() && forall p: TrioIndividual :: p in counts
    ensures |maxTrioGenoType| == 3
    ensures IsFirstMaximum(bn.nodeMap, LikelihoodsOf(counts, score), logOf,
                           (maxTrioGenoType[0], maxTrioGenoType[1], maxTrioGenoType[2]))
  {
    var individualLogLikelihood := bn.GetIndividualLogLikelihood(counts, score);
    SameLikelihoods(individualLogLikelihood, counts, score);
    maxTrioGenoType := bn.GetMaxGenoType(individualLogLikelihood, logOf);
  }

  /** A complete likelihood map with the values of LikelihoodsOf is LikelihoodsOf. */
  lemma SameLikelihoods(ll: Likelihoods, counts: map<TrioIndividual, map<Allele, nat>>, score: (Genotype, bool, Allele) -> real)
    requires forall p: TrioIndividual :: p in counts
    requires LikelihoodsComplete(ll)
    requires forall p: TrioIndividual, g: Genotype :: ll[p][g] == ReadLogLikelihood(counts[p], g, score)
    ensures ll == LikelihoodsOf(counts, score)
  {
    var want := LikelihoodsOf(counts, score);
    forall p: TrioIndividual ensures ll[p] == want[p] {
      assert ll[p].Keys == want[p].Keys;
    }
    assert ll.Keys == want.Keys;
  }

  /** A second Init, with other rates, keeps the net the first one built. */
  method InitTwice(infer: BayesInfer, first: Rates, second: Rates)
    requires infer.Valid() && !infer.isInitialized
    modifies infer
    ensures infer.Valid() && infer.isInitialized
    ensures infer.bn.sequenceErrorRate == first.sequenceErrorRate
    ensures infer.bn.denovoMutationRate == first.denovoMutationRate
  {
    infer.Init(first);
    infer.Init(second);
  }
}
