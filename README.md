# De novo variant caller — a verified model of its core

The de novo variant caller looks at a parent–parent–child trio and decides whether the child carries a
mutation that neither parent could have passed on. This project models the parts of the Java
caller that decide things, plus the small benchmark post-processing script. Each part is proved
against a specification of what it computes.

- **Trio genotype rules** (`denovo_util.dfy`, module `DenovoUtil`):
  - the four alleles and the ten unordered diploid genotypes;
  - the Mendelian table `isDenovoMap`, built by the static initialiser's triple loop;
  - `checkTrioGenoTypeIsDenovo`;
  - the inference-method lookup, map reversal and the no-call genotype test.
- **Per-member variant queues** (`variants_buffer.dfy`): a class whose `bufferMap` of FIFO queues is
  updated in place by `push` and `pop`.
- **Candidate-line parsing** (`denovo_caller.dfy`): `parseLine` over Java's `String.split(",")`, and
  the rendering of a `CallHolder`.
- **Read-base counting** (`read_summary.dfy`): the counting constructor of `ReadSummary`, with the
  `long` subtraction and the `(int)` cast written out, gap skipping, and the two exceptions it can raise.
- **The Bayes net** (`bayes_net.dfy`):
  - the uniform parent tables and the Mendelian child table;
  - the row-sums-to-one identity over `real`;
  - the per-genotype read log-likelihood as a weighted sum of an abstract per-base score;
  - the strict-`>` search for the most likely trio genotype.
- **Inference front end** (`bayes_infer.dfy`): the build-once guard of `Init`, and `infer` with its
  readCounts summary string.
- **Work partitioning** (`variant_caller.dfy`): how one contig's range is cut into per-thread segments.
- **Runner bookkeeping** (`denovo_runner.dfy`):
  - callset and readset name matching;
  - the readset completeness check;
  - the caller-mode dispatch, where FULL mode rewires the command line between two runs.
- **Benchmark post-processing** (`plot_benchmarks.dfy`):
  - `parse_file`'s `key:value` parsing;
  - the row logic of `extract_arrays_threaded`: thread count, unit stripping, division, NaN filter
    and stable sort by x;
  - the readstore file-name partition.

`wrappers.dfy` holds `Option`/`Result`. `java_text.dfy` holds the string semantics the code relies
on: ASCII lower-casing, decimal rendering and `Long.valueOf` restricted to ASCII digits, Java's
`split` (trailing empty fields dropped), Python's `str.split`, `str.strip` restricted to ASCII
whitespace, and the substring test.

The sources come from several revisions that do not quite agree, and this model follows the main
source files where they conflict:
- some files use `Genotypes`, `TrioMember` and `String` count keys where `DenovoUtil.java` defines
  `Genotype`, `TrioIndividual` and `Allele`; the model uses the latter throughout;
- `DenovoBayesNetTest.java` expects non-uniform parent priors, but
  `DenovoBayesNet.java:93-97` builds a uniform 1/10 table. The model follows the code.

Java `null` is modelled as `None`, and thrown exceptions as the `Err` branch of a `Result` (or an
`Option` of the error).

## Model

| member | source | states |
|---|---|---|
| DenovoUtil.TrioListsEveryMember | src/main/java/com/google/cloud/genomics/denovo/DenovoUtil.java:92-94 | TrioIndividual.values() lists every member, so loops over it visit DAD, MOM and CHILD |
| DenovoUtil.AlleleValueOf | src/main/java/com/google/cloud/genomics/denovo/DenovoUtil.java:96-97 | Allele.valueOf yields the allele exactly when the string is its one-letter name, and fails (None) otherwise |
| DenovoUtil.GetMutants | src/main/java/com/google/cloud/genomics/denovo/DenovoUtil.java:101-105 | getMutants(x) is exactly the three alleles other than x |
| DenovoUtil.TransversionInvolution | src/main/java/com/google/cloud/genomics/denovo/DenovoUtil.java:107-115 | getTransversion is an involution with no fixed point |
| DenovoUtil.TransitionPartition | src/main/java/com/google/cloud/genomics/denovo/DenovoUtil.java:107-125 | the two transitions of x, x itself and its transversion partition the four alleles |
| DenovoUtil.HomozygousIffOneAllele | src/main/java/com/google/cloud/genomics/denovo/DenovoUtil.java:128-170 | a genotype is declared homozygous exactly when its allele set has one element, and exactly when both letters of its name agree |
| DenovoUtil.GenotypeNameSorted | src/main/java/com/google/cloud/genomics/denovo/DenovoUtil.java:129-138 | every genotype constant lists its alleles in allele order |
| DenovoUtil.NameContainsAllele | src/main/java/com/google/cloud/genomics/denovo/DenovoUtil.java:164-178 | an allele's letter occurs in a genotype's name exactly when containsAllele holds for it |
| DenovoUtil.AlleleSetInjective | src/main/java/com/google/cloud/genomics/denovo/DenovoUtil.java:164-166 | distinct genotypes have distinct allele sets |
| DenovoUtil.GenotypeValueOf | src/main/java/com/google/cloud/genomics/denovo/DenovoUtil.java:128-138 | Genotype.valueOf returns a constant exactly when some genotype has that name, and then the constant of that name; otherwise the IllegalArgumentException (None) |
| DenovoUtil.ValueOfPairAlleles | src/main/java/com/google/cloud/genomics/denovo/DenovoUtil.java:158-162 | the genotype built from a and b (sorted, then looked up by name) has allele set {a, b} and is homozygous exactly when a == b |
| DenovoUtil.ValueOfPairAllelesSymmetric | src/main/java/com/google/cloud/genomics/denovo/DenovoUtil.java:158-162 | valueOfPairAlleles(a, b) == valueOfPairAlleles(b, a) |
| DenovoUtil.IsDenovoByAlleles | src/main/java/com/google/cloud/genomics/denovo/DenovoUtil.java:77-85 | the name-letter test says "not de novo" exactly when mom carries one child allele and dad the other, in either order |
| DenovoUtil.IsDenovoParentSymmetric | src/main/java/com/google/cloud/genomics/denovo/DenovoUtil.java:83-85 | swapping dad and mom never changes the verdict |
| DenovoUtil.InheritedChildIsNotDenovo | src/main/java/com/google/cloud/genomics/denovo/DenovoUtil.java:77-85 | a child formed from one allele of mom and one of dad is never de novo |
| DenovoUtil.IsDenovoExamples | src/test/java/com/google/cloud/genomics/denovo/DenovoUtilTest.java:69-116 | the verdicts the unit test expects, e.g. AA,AA,TT de novo, AC,GT,AT and AC,AC,AA not |
| DenovoUtil.BuildIsDenovoMap | src/main/java/com/google/cloud/genomics/denovo/DenovoUtil.java:74-89 | after the triple loop, every (dad, mom, child) triple is a key and maps to the inheritance verdict |
| DenovoUtil.CheckTrioGenoTypeIsDenovo | src/main/java/com/google/cloud/genomics/denovo/DenovoUtil.java:344-349 | the list is read as dad, mom, child at positions 0, 1, 2 (a list of at least three is required, as List.get demands) |
| DenovoUtil.CountValidIsSize | src/main/java/com/google/cloud/genomics/denovo/DenovoBayesNet.java:105-114 | counting the non-de-novo children of a repeat-free list gives the size of their set |
| DenovoUtil.ValidInheritanceCasesIsCount | src/main/java/com/google/cloud/genomics/denovo/DenovoBayesNet.java:105-114 | the counting pass over all ten genotypes finds exactly the set of valid children |
| DenovoUtil.ValidInheritanceCasesBounds | src/main/java/com/google/cloud/genomics/denovo/DenovoBayesNet.java:125-128 | every parent pair has between one and four valid children, so the division at line 128 never divides by zero |
| DenovoUtil.ValidInheritanceCasesAtMostFour | src/main/java/com/google/cloud/genomics/denovo/DenovoUtil.java:77-85 | at most four child genotypes are valid for any parent pair (one allele from each parent) |
| DenovoUtil.LoweredNameDetermines | src/main/java/com/google/cloud/genomics/denovo/DenovoUtil.java:184-189 | distinct inference methods have distinct lower-cased names |
| DenovoUtil.SelectMethodfromString | src/main/java/com/google/cloud/genomics/denovo/DenovoUtil.java:184-189 | returns m exactly when m's name and the argument agree case-insensitively; otherwise fails with "Unknown method " + argument |
| DenovoUtil.GetReversedMap | src/main/java/com/google/cloud/genomics/denovo/DenovoUtil.java:195-201 | the reversed map's keys are the original values, each maps back to a key holding it, and for an injective map reversed[m[k]] == k |
| DenovoUtil.GetGenotype | src/main/java/com/google/cloud/genomics/denovo/DenovoUtil.java:252-259 | absent exactly when the genotype list contains -1, otherwise the list itself |
| VariantsBuffers.VariantsBuffer.constructor | src/main/java/com/google/cloud/genomics/denovo/VariantsBuffer.java:33-37 | a new buffer has an empty queue for each of DAD, MOM and CHILD |
| VariantsBuffers.VariantsBuffer.Push | src/main/java/com/google/cloud/genomics/denovo/VariantsBuffer.java:39-41 | appends at the back of that member's queue; the other queues are unchanged; the member's end position becomes the pushed variant's end, and its start position is the pushed variant's only when the queue was empty |
| VariantsBuffers.VariantsBuffer.Pop | src/main/java/com/google/cloud/genomics/denovo/VariantsBuffer.java:43-48 | fails with IllegalStateException exactly on an empty queue, changing nothing; otherwise removes the front element (length drops by one) and leaves the other queues alone |
| VariantsBuffers.VariantsBuffer.GetStartPosition | src/main/java/com/google/cloud/genomics/denovo/VariantsBuffer.java:53-55 | 0 for an empty queue, else the position of the front variant |
| VariantsBuffers.VariantsBuffer.GetEndPosition | src/main/java/com/google/cloud/genomics/denovo/VariantsBuffer.java:60-62 | 0 for an empty queue, else the end of the back variant |
| VariantsBuffers.PushThenPop | src/test/java/com/google/cloud/genomics/denovo/VariantsBufferTest.java:60-69 | pushing onto an empty queue and popping restores every queue |
| DenovoCaller.ParseLine | src/main/java/com/google/cloud/genomics/denovo/DenovoCaller.java:35-44 | ParseException exactly when the split has fewer than two fields; with two or more fields, NumberFormatException of the second field exactly when it is not a `long`; a parsed call has a comma-free chromosome and a position in the `long` range |
| DenovoCaller.ParseLineShortLines | src/main/java/com/google/cloud/genomics/denovo/DenovoCaller.java:36-41 | "chr1", "chr1," (the empty tail is dropped by split) and "" fail |
| DenovoCaller.ParseLineBadPosition | src/main/java/com/google/cloud/genomics/denovo/DenovoCaller.java:36-41 | "chr1,x" fails with the NumberFormatException of parsing "x" |
| DenovoCaller.ParseLineNotALong | src/main/java/com/google/cloud/genomics/denovo/DenovoCaller.java:36-41 | for every comma-free chromosome and every non-empty comma-free second field that is not a `long`, the line fails with that field's NumberFormatException |
| JavaText.ParseLongNonDigit | src/main/java/com/google/cloud/genomics/denovo/DenovoCaller.java:41 | Long.valueOf rejects any string with a non-digit after the optional leading sign |
| DenovoCaller.ParseLineIgnoresExtraFields | src/main/java/com/google/cloud/genomics/denovo/DenovoCaller.java:36-43 | fields after the position do not change the parsed call |
| DenovoCaller.ParseLineRoundTrip | src/main/java/com/google/cloud/genomics/denovo/DenovoCaller.java:35-44 | parsing c + "," + p gives (c, p) back for every comma-free c and `long` p |
| DenovoCaller.CallHolderToString | src/main/java/com/google/cloud/genomics/denovo/DenovoCaller.java:69-72 | the rendering is "<", chromosome, ",", position, ">" |
| DenovoCaller.CallHolderToStringParses | src/main/java/com/google/cloud/genomics/denovo/DenovoCaller.java:35-72 | a rendered call, without its brackets, parses back to the same call |
| ReadSummaries.WrapLong | src/main/java/com/google/cloud/genomics/denovo/ReadSummary.java:40 | `long` subtraction wraps modulo 2^64 into the signed range and is the identity within it |
| ReadSummaries.ToInt32 | src/main/java/com/google/cloud/genomics/denovo/ReadSummary.java:40 | the (int) cast keeps the low 32 bits, signed, and is the identity within the int range |
| ReadSummaries.OffsetIsDifference | src/main/java/com/google/cloud/genomics/denovo/ReadSummary.java:40 | when the distance fits in an int, the offset is candidatePosition minus the read position |
| ReadSummaries.BaseAtPos | src/main/java/com/google/cloud/genomics/denovo/ReadSummary.java:39-47 | StringIndexOutOfBounds exactly when the offset is outside the aligned bases; a gap exactly when the base is '-'; allele a exactly when the base is a's letter |
| ReadSummaries.CountBases | src/main/java/com/google/cloud/genomics/denovo/ReadSummary.java:36-51 | the counting loop computes the fold Tally over the reads, including its first exception |
| ReadSummaries.TallyErrorSticks | src/main/java/com/google/cloud/genomics/denovo/ReadSummary.java:37-50 | once a read raises, later reads do not change the outcome |
| ReadSummaries.TallyCounts | src/main/java/com/google/cloud/genomics/denovo/ReadSummary.java:37-50 | each allele's count is the number of reads showing it, and only alleles seen are keys |
| ReadSummaries.CountsArePositive | src/main/java/com/google/cloud/genomics/denovo/ReadSummary.java:48-49 | every stored count is at least 1 |
| ReadSummaries.TallyTotal | src/main/java/com/google/cloud/genomics/denovo/ReadSummary.java:43-49 | the counts add up to the number of reads that are not gaps |
| ReadSummaries.TallyOkIff | src/main/java/com/google/cloud/genomics/denovo/ReadSummary.java:40-47 | counting succeeds exactly when every read can be read at the candidate position |
| ReadSummaries.TallyFirstError | src/main/java/com/google/cloud/genomics/denovo/ReadSummary.java:37-47 | a failed count reports the exception of the first unreadable read |
| ReadSummaries.SingleRead | src/main/java/com/google/cloud/genomics/denovo/ReadSummary.java:36-51 | one read showing a yields {a=1} |
| ReadSummaries.CountToString | src/main/java/com/google/cloud/genomics/denovo/ReadSummary.java:54-56 | the TreeMap rendering is bracketed by braces |
| ReadSummaries.CountToStringExamples | src/main/java/com/google/cloud/genomics/denovo/ReadSummary.java:54-56 | {} for no counts, "{A=3, C=1}" with keys in allele order |
| ReadSummaries.EntriesCount | src/main/java/com/google/cloud/genomics/denovo/ReadSummary.java:54-56 | one "X=n" entry is rendered per key |
| ReadSummaries.CountToStringNoChar | src/main/java/com/google/cloud/genomics/denovo/ReadSummary.java:54-56 | the rendering holds only braces, allele letters, digits, '-', '=' and ", " (so no ';') |
| ReadSummaries.ReadSummary.constructor | src/main/java/com/google/cloud/genomics/denovo/ReadSummary.java:27-30 | a summary without reads has no counts |
| ReadSummaries.ReadSummary.FromCount | src/main/java/com/google/cloud/genomics/denovo/ReadSummary.java:32-34 | the summary holds the given counts |
| ReadSummaries.ReadSummary.FromReads | src/main/java/com/google/cloud/genomics/denovo/ReadSummary.java:36-51 | a fresh summary holding the tally of the reads, or the exception of the first unreadable read |
| ReadSummaries.ReadSummary.SetCount | src/main/java/com/google/cloud/genomics/denovo/ReadSummary.java:62-65 | replaces the counts and returns the same object |
| DenovoBayesNets.Share | src/main/java/com/google/cloud/genomics/denovo/DenovoBayesNet.java:125-128 | v valid children at this share take what the n - v de novo children leave |
| DenovoBayesNets.RepeatedIsProduct | src/main/java/com/google/cloud/genomics/denovo/DenovoBayesNet.java:189-190 | adding x n times is n * x |
| DenovoBayesNets.ChildRowSumsToOne | src/main/java/com/google/cloud/genomics/denovo/DenovoBayesNet.java:98-131 | for every parent pair and every rate, the child-table row sums to exactly 1 over the reals |
| DenovoBayesNets.ChildProbabilityShares | src/main/java/com/google/cloud/genomics/denovo/DenovoBayesNet.java:120-129 | a de novo child gets exactly the mutation rate, and all valid children of a pair get the same value |
| DenovoBayesNets.EmptyCountScoresZero | src/main/java/com/google/cloud/genomics/denovo/DenovoBayesNet.java:187-191 | with no reads, every genotype's read log-likelihood is 0 |
| DenovoBayesNets.WeightedScoreIncrement | src/main/java/com/google/cloud/genomics/denovo/DenovoBayesNet.java:188-191 | one more read of allele a adds one score of a to the weighted sum |
| DenovoBayesNets.HistogramScoreIsPerReadScore | src/main/java/com/google/cloud/genomics/denovo/DenovoBayesNet.java:180-195 | the weighted sum over the reads' histogram equals the sum of each read's own score |
| DenovoBayesNets.ChildTableDone | src/main/java/com/google/cloud/genomics/denovo/DenovoBayesNet.java:101-132 | once the loops have covered all triples, the table is the child table |
| DenovoBayesNets.ScanIsFirstMaximum | src/main/java/com/google/cloud/genomics/denovo/DenovoBayesNet.java:209-231 | the scan's bounds make the kept triple the first maximum |
| DenovoBayesNets.FirstMaximumUnique | src/main/java/com/google/cloud/genomics/denovo/DenovoBayesNet.java:224-227 | the first maximum is unique: ties go to the earliest triple in dad-mom-child order |
| DenovoBayesNets.DenovoBayesNet.constructor | src/main/java/com/google/cloud/genomics/denovo/DenovoBayesNet.java:40-47 | stores both rates and leaves the three nodes built |
| DenovoBayesNets.DenovoBayesNet.InitializeTrioNodes | src/main/java/com/google/cloud/genomics/denovo/DenovoBayesNet.java:52-59 | DAD and MOM have no parents and uniform tables; CHILD has parents [DAD node, MOM node] and the Mendelian table |
| DenovoBayesNets.DenovoBayesNet.AddNode | src/main/java/com/google/cloud/genomics/denovo/DenovoBayesNet.java:61-64 | the node is stored under its id, replacing any earlier one; other ids are unchanged |
| DenovoBayesNets.DenovoBayesNet.CreateConditionalProbabilityTable | src/main/java/com/google/cloud/genomics/denovo/DenovoBayesNet.java:90-135 | a parent gets exactly the ten singleton keys at 1/10; the child gets exactly the 1000 triples, each de novo one at the rate and each valid one at (1 - rate * (10 - v)) / v |
| DenovoBayesNets.DenovoBayesNet.CountValidInheritanceCases | src/main/java/com/google/cloud/genomics/denovo/DenovoBayesNet.java:105-114 | the first pass counts exactly the valid children of the parent pair |
| DenovoBayesNets.DenovoBayesNet.GetGenoTypeLogLikelihood | src/main/java/com/google/cloud/genomics/denovo/DenovoBayesNet.java:180-195 | every genotype gets the count-weighted sum of per-base scores, with homozygosity read off the genotype's name |
| DenovoBayesNets.DenovoBayesNet.GetIndividualLogLikelihood | src/main/java/com/google/cloud/genomics/denovo/DenovoBayesNet.java:162-172 | every member and genotype gets the read log-likelihood of that member's counts |
| DenovoBayesNets.DenovoBayesNet.GetMaxGenoType | src/main/java/com/google/cloud/genomics/denovo/DenovoBayesNet.java:203-232 | returns a triple whose score is at least every triple's, above every triple enumerated before it |
| DenovoBayesNets.DenovoBayesNet.TrioLogLikelihood | src/main/java/com/google/cloud/genomics/denovo/DenovoBayesNet.java:212-222 | the summed score is three read log-likelihoods plus the logs of the three table entries (getLogLikelihoodFromCPT, lines 234-240) |
| BayesInfers.CountsOf | src/main/java/com/google/cloud/genomics/denovo/BayesInfer.java:81-82 | each member's counts are those its ReadSummary holds |
| BayesInfers.LikelihoodsOf | src/main/java/com/google/cloud/genomics/denovo/BayesInfer.java:81-82 | a complete likelihood map, each value being the read log-likelihood of that member's counts |
| BayesInfers.MemberEntries | src/main/java/com/google/cloud/genomics/denovo/BayesInfer.java:94-100 | one "NAME:counts" entry per member, in the given order |
| BayesInfers.ReadCountsLayout | src/main/java/com/google/cloud/genomics/denovo/BayesInfer.java:90-100 | readCounts is "DAD:…;MOM:…;CHILD:…" in TreeMap (declaration) order |
| BayesInfers.ReadCountsSplit | src/main/java/com/google/cloud/genomics/denovo/BayesInfer.java:94-100 | splitting readCounts on ';' gives back the three member entries |
| BayesInfers.SameLikelihoods | src/main/java/com/google/cloud/genomics/denovo/DenovoBayesNet.java:162-172 | the likelihood map the net computes is LikelihoodsOf the counts |
| BayesInfers.BayesInfer.constructor | src/main/java/com/google/cloud/genomics/denovo/BayesInfer.java:42-43 | at load time there is no net and the flag is false |
| BayesInfers.BayesInfer.Init | src/main/java/com/google/cloud/genomics/denovo/BayesInfer.java:48-66 | once initialised it keeps the old net; otherwise it builds a fresh fully built net from the given rates; afterwards the flag is set |
| BayesInfers.BayesInfer.Infer | src/main/java/com/google/cloud/genomics/denovo/BayesInfer.java:73-106 | initialises only if needed; returns the first maximum under the read likelihoods, the de novo verdict of that triple, and the readCounts string |
| BayesInfers.InferOn | src/main/java/com/google/cloud/genomics/denovo/BayesInfer.java:80-106 | on a built net: a triple of three genotypes that is the first maximum of the trio scores under the read likelihoods, its de novo verdict, and the readCounts summary of the counts |
| BayesInfers.InitTwice | src/main/java/com/google/cloud/genomics/denovo/BayesInfer.java:48-53 | a second Init with other rates keeps the first net's rates |
| VariantCallers.TruncDiv | src/main/java/com/google/cloud/genomics/denovo/VariantCaller.java:92 | Java's `/` on long rounds toward zero: it is Euclidean division on non-negatives and brackets the dividend from the zero side otherwise |
| VariantCallers.StartContigPos | src/main/java/com/google/cloud/genomics/denovo/VariantCaller.java:89 | the configured start, or 1 when none is set |
| VariantCallers.EndContigPos | src/main/java/com/google/cloud/genomics/denovo/VariantCaller.java:90-91 | the configured end, or the contig's upper bound when none is set |
| VariantCallers.Plan | src/main/java/com/google/cloud/genomics/denovo/VariantCaller.java:96-98 | one segment per thread, the i-th being that thread's segment |
| VariantCallers.PartitionContig | src/main/java/com/google/cloud/genomics/denovo/VariantCaller.java:86-98 | fails exactly when the thread count is below one (newFixedThreadPool); otherwise the loop builds the plan over the defaulted range |
| VariantCallers.PlanEnds | src/main/java/com/google/cloud/genomics/denovo/VariantCaller.java:96-98 | the first segment starts at the range start and the last ends at the range end |
| VariantCallers.PlanAbuts | src/main/java/com/google/cloud/genomics/denovo/VariantCaller.java:97-98 | each segment starts right after the previous one ends |
| VariantCallers.StrideFits | src/main/java/com/google/cloud/genomics/denovo/VariantCaller.java:92 | in a non-empty range the stride is non-negative and n - 1 strides fit in it |
| VariantCallers.PlanOrdered | src/main/java/com/google/cloud/genomics/denovo/VariantCaller.java:96-98 | a lower thread's segment ends before a higher thread's segment starts |
| VariantCallers.PlanCovers | src/main/java/com/google/cloud/genomics/denovo/VariantCaller.java:96-98 | every position of a non-empty range lies in some segment |
| VariantCallers.PlanDisjoint | src/main/java/com/google/cloud/genomics/denovo/VariantCaller.java:96-98 | no position lies in two segments |
| VariantCallers.ShortRangeStrideZero | src/main/java/com/google/cloud/genomics/denovo/VariantCaller.java:92-98 | if the range is shorter than the thread count, the stride is 0, every non-last segment is empty and the last covers the range |
| DenovoRunners.CreateCallsetNameMap | src/main/java/com/google/cloud/genomics/denovo/DenovoRunner.java:271-277 | DAD, MOM and CHILD map to the dad, mom and child callset names |
| DenovoRunners.FirstMatchIsFirst | src/main/java/com/google/cloud/genomics/denovo/DenovoRunner.java:219-223 | a callset goes to p exactly when p has its name and no earlier member does |
| DenovoRunners.CallsetIdMapMeaning | src/main/java/com/google/cloud/genomics/denovo/DenovoRunner.java:217-225 | a member has an id exactly when some callset goes to it, and the id is that of the last such callset |
| DenovoRunners.SharedNameGoesToFirst | src/main/java/com/google/cloud/genomics/denovo/DenovoRunner.java:219-223 | if two members share a name, no callset goes to the later one |
| DenovoRunners.CreateCallsetIdMap | src/main/java/com/google/cloud/genomics/denovo/DenovoRunner.java:212-227 | the nested loop with its break computes CallsetIdMapOf over the callsets in list order |
| DenovoRunners.LastReadsetIdMeaning | src/main/java/com/google/cloud/genomics/denovo/DenovoRunner.java:249-255 | the id found is that of a readset with the name, and no later readset has it; it is absent exactly when none does |
| DenovoRunners.ReadsetIdMapOf | src/main/java/com/google/cloud/genomics/denovo/DenovoRunner.java:248-256 | each member with a matching readset maps to the last one's id, and only those members are keys |
| DenovoRunners.TrioMapFull | src/main/java/com/google/cloud/genomics/denovo/DenovoRunner.java:259 | a map over trio members has size 3 exactly when every member is a key |
| DenovoRunners.CreateReadsetIdMap | src/main/java/com/google/cloud/genomics/denovo/DenovoRunner.java:238-263 | succeeds exactly when every member has a matching readset, then with ReadsetIdMapOf; otherwise IllegalStateException |
| DenovoRunners.CommandLine.constructor | src/main/java/com/google/cloud/genomics/denovo/DenovoRunner.java:178-183 | holds the caller mode and the input and output file names that execute reads and rewrites, as given |
| DenovoRunners.DenovoRunner.constructor | src/main/java/com/google/cloud/genomics/denovo/DenovoRunner.java:77-119 | the runner snapshots the command line's caller mode and file names |
| DenovoRunners.DenovoRunner.Execute | src/main/java/com/google/cloud/genomics/denovo/DenovoRunner.java:167-188 | VARIANT runs the variant caller, READ the read caller (but an error without an input file), and a null mode is an error. FULL runs VARIANT into out + ".tmp" and then READ from there into out, leaving the command line in READ mode; other modes leave it unchanged |
| PlotBenchmarks.Unpack | src/main/scripts/plot_benchmarks.py:30-31 | a line unpacks into a colon-free stripped key and value, or fails with a part count other than 2 |
| PlotBenchmarks.UnpacksIffOneColon | src/main/scripts/plot_benchmarks.py:30 | a line unpacks exactly when it holds one ':' |
| PlotBenchmarks.BlankLineIsMalformed | src/main/scripts/plot_benchmarks.py:29-30 | a blank or whitespace-only line makes the unpacking fail |
| PlotBenchmarks.ParseFile | src/main/scripts/plot_benchmarks.py:26-33 | the loop computes the fold ParseLines, stopping at the first line that does not unpack |
| PlotBenchmarks.ParseFails | src/main/scripts/plot_benchmarks.py:29-32 | parsing fails exactly when some line does not unpack, with the error of the first such line |
| PlotBenchmarks.ParseKeys | src/main/scripts/plot_benchmarks.py:30-32 | after a successful parse, the keys are exactly the keys of the lines |
| PlotBenchmarks.ParseLastWins | src/main/scripts/plot_benchmarks.py:32 | a key maps to the value of its last line, so a later duplicate overwrites an earlier one |
| PlotBenchmarks.ParseLinesFails | src/main/scripts/plot_benchmarks.py:26-33 | parse_file fails exactly when some line does not hold exactly one ':' |
| PlotBenchmarks.DropLastTwoUnit | src/main/scripts/plot_benchmarks.py:40-41 | `[:-2]` removes exactly a two-character unit suffix |
| PlotBenchmarks.DivideByInt | src/main/scripts/plot_benchmarks.py:41-42 | float by int division keeps NaN as NaN and infinity as infinity |
| PlotBenchmarks.DivideByOne | src/main/scripts/plot_benchmarks.py:41-42 | dividing by the default thread count 1 changes nothing |
| PlotBenchmarks.ThreadCount | src/main/scripts/plot_benchmarks.py:39 | x is 1 when numThreads is absent |
| PlotBenchmarks.ReadRow | src/main/scripts/plot_benchmarks.py:39-42 | a row is produced only when "Mean" and "Sdev" are both present and the thread count parses to a non-zero x |
| PlotBenchmarks.MeanRequired | src/main/scripts/plot_benchmarks.py:40 | 'Mean' is required even when 'Mean/thread' exists, because the default of .get is evaluated first |
| PlotBenchmarks.RowValues | src/main/scripts/plot_benchmarks.py:39-42 | y is float of Mean/thread (or Mean) without its last two characters, and err is float of Sdev without its last two, divided by x |
| PlotBenchmarks.SingleThreadDefault | src/main/scripts/plot_benchmarks.py:39-42 | with no numThreads, x is 1 and err is the parsed Sdev |
| PlotBenchmarks.CollectPerOutcome | src/main/scripts/plot_benchmarks.py:37-42 | the files succeed exactly when each does, giving one row per file in file order |
| PlotBenchmarks.CollectFirstError | src/main/scripts/plot_benchmarks.py:37-42 | the first failing file's error is the one raised |
| PlotBenchmarks.RowsOfMeaning | src/main/scripts/plot_benchmarks.py:37-42 | reading succeeds exactly when every file yields a row; row i is file i's row; otherwise the first failing file's error is raised |
| PlotBenchmarks.ZipColumns | src/main/scripts/plot_benchmarks.py:44-45 | zipping the three columns of a row list gives the rows back |
| PlotBenchmarks.NonNaNKeeps | src/main/scripts/plot_benchmarks.py:44 | a row survives the filter exactly when it is a row whose y is not NaN |
| PlotBenchmarks.AllNaNEmpties | src/main/scripts/plot_benchmarks.py:44 | the filter leaves nothing exactly when every y is NaN |
| PlotBenchmarks.SortByXSorted | src/main/scripts/plot_benchmarks.py:45 | the sort by x is ascending |
| PlotBenchmarks.SortByXPermutes | src/main/scripts/plot_benchmarks.py:45 | the sort by x is a permutation |
| PlotBenchmarks.SortByXStable | src/main/scripts/plot_benchmarks.py:45 | the sort is stable: rows with equal x keep their relative order |
| PlotBenchmarks.SeriesFails | src/main/scripts/plot_benchmarks.py:44 | the unpacking after the filter fails exactly when every y is NaN |
| PlotBenchmarks.SeriesShape | src/main/scripts/plot_benchmarks.py:44-46 | the three outputs are aligned and of equal positive length; x ascends, no y is NaN, and the triples are a stable permutation of the non-NaN rows |
| PlotBenchmarks.ExtractArraysThreaded | src/main/scripts/plot_benchmarks.py:35-46 | the loop and the filter and sort give the first failing file's error, or the series of the files' rows |
| PlotBenchmarks.ReadstorePartition | src/main/scripts/plot_benchmarks.py:97-100 | the Contig set and the rest are disjoint and together make up the non-png names; exactly the Contig set's names contain "Contig" |

## Left out

- All Genomics API traffic is left out: callset, readset, read and variant searches, paging,
  retries and OAuth. The lists those searches return are inputs to the model (`CallSet`,
  `Readset`, `Read` and `Variant` records holding only the fields used).
- Thread pools, `synchronized` blocks and the per-segment workers are left out; only the
  segment arithmetic of `VariantCaller.execute` is modelled. `DenovoCallers` and the callers'
  own `execute` bodies are not part of this model: `DenovoRunner.Execute` records which runs
  would start (`VariantRun`, `ReadRun`) instead of running them.
- Logging, printing and file writing are left out: `writeCalls`, `printConditionalProbabilityTable`,
  `setUpLogger`, the `System.out` line of `infer`, and all plotting in `plot_benchmarks.py`.
- Floating point: probabilities are `real`, so the table identities are exact rather than rounded.
  `Math.log` is an abstract parameter `logOf`. `getBaseLikelihood` is an abstract per-base score
  (`score`, or `scoreFor(sequenceErrorRate)` in `infer`), because its value is a number of logarithms.
- DenovoBayesNets.DenovoBayesNet.GetMaxGenoType: `Double.NEGATIVE_INFINITY` as the starting best
  is modelled by a "nothing kept yet" flag, so the first triple is always taken. The Java code
  would return null when every score is -infinity or NaN, which `real` scores cannot be.
- DenovoBayesNets.DenovoBayesNet.GetGenoTypeLogLikelihood: the Java loop visits the count map in
  its iteration order; the model adds the alleles in A, C, G, T order. Over `real` the order
  of addition does not change the sum.
- VariantCallers.PartitionContig: `long` overflow of `threadIdx * strideLength` and
  `start + strideLength - 1` is not modelled; positions are unbounded integers.
- File reading, `glob` and directory listing are left out. A benchmark file is its list of lines;
  the globbed names are an input set for the readstore partition and an input sequence for
  `extract_arrays_threaded`, whose order stands for Python's set iteration order.
- Python's `int()` and `float()` are abstract parameters `parseInt` and `parseFloat`; `float`
  values are `PyFloat` (finite real, signed infinity, NaN).
- PlotBenchmarks.Series: the error raised when every row is filtered out ("not enough values to
  unpack") is represented as an unpacking error with 0 parts; its message text is not modelled.
- The varstore maxResults section of the script (`plot_benchmarks.py:72-79`) is driver code that
  repeats the parse, unit-strip and sort steps modelled above, without the NaN filter.
- `BayesInfer`'s static fields `bn` and `isInitialized` are the fields of one `BayesInfer` object.
- DenovoRunners.CreateReadsetIdMap: the exception message omits the map's `toString`.
- DenovoRunners.DenovoRunner.constructor: the API lookups of initFromCommandLine and the
  `DenovoShared` builder are left out; only the fields `execute` reads are kept. The `Caller`
  enum is not among the files and is taken to be {VARIANT, READ, FULL}, with null as `None`.
  The output file name is assumed non-null. The shown `CommandLine.java` lacks the `caller`,
  `inputFileName` and `outputFileName` fields that `DenovoRunner.java` uses; they are modelled
  as `DenovoRunner.java` uses them.
- JavaText.ParseLong: accepts only the ASCII digits '0'-'9' after an optional sign. Java's
  `Long.parseLong` also accepts other Unicode decimal digits through `Character.digit`, so a
  position such as "١٢" is a NumberFormatException in the model but 12 in Java.
- JavaText.IsPySpace: only ASCII whitespace. Python 3's `str.strip()` also removes non-ASCII
  whitespace (U+0085, U+00A0, U+2000-U+200A, U+3000 and others), which `Strip` and
  `PlotBenchmarks.Unpack` keep.
- ReadSummaries.CountToString: always renders the counts in allele order A, C, G, T, as the
  counting constructor's `TreeMap` does. A summary built from a caller's map, by
  `ReadSummary(Map)` or `setCount`, renders in that map's own iteration order in Java, which a
  `HashMap` does not fix. `BayesInfers.ReadCountsLayout` inherits this ordering.
- ReadSummaries.ReadSummary.FromCount / ReadSummaries.ReadSummary.SetCount: the summary holds
  the counts as a value. Java keeps the caller's `Map` object, so later changes through another
  reference would show in the summary; this aliasing is not modelled.
- ReadSummaries.Tally: counts are unbounded `nat`. The `Integer` count `+ 1` of the counting
  constructor would wrap past 2^31 - 1; this overflow is not modelled.
- `VariantsBuffer.toString` is left out, because it does not type-check against the shown
  `Variant` fields.
