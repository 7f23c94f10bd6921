/** The per-allele read counts of one trio member at one candidate position. */
module ReadSummaries {
  import opened Wrappers
  import opened JavaText
  import opened DenovoUtil

  const INT_MIN: int := -0x8000_0000
  const INT_MAX: int := 0x7FFF_FFFF

  /** Java `long` arithmetic: the result wraps modulo 2^64 into the signed range. */
  function WrapLong(x: int): (r: int)
    ensures InLongRange(r) && (r - x) % 0x1_0000_0000_0000_0000 == 0
    ensures InLongRange(x) ==> r == x
  {
    var m := x % 0x1_0000_0000_0000_0000;
    if m > LONG_MAX then m - 0x1_0000_0000_0000_0000 else m
  }

  /** The `(int)` cast of a `long`: the low 32 bits, read as a signed number. */
  function ToInt32(x: int): (r: int)
    ensures INT_MIN <= r <= INT_MAX && (r - x) % 0x1_0000_0000 == 0
    ensures INT_MIN <= x <= INT_MAX ==> r == x
  {
    var m := x % 0x1_0000_0000;
    if m > INT_MAX then m - 0x1_0000_0000 else m
  }

  /** The two fields of a read the summary looks at. */
  datatype Read = Read(position: int, alignedBases: string)

  /** StringIndexOutOfBoundsException from substring, IllegalArgumentException from valueOf. */
  datatype CountError = StringIndexOutOfBounds(offset: int) | IllegalArgument(base: string)

  /** `(int) (candidatePosition - read.getPosition())`, with the `long` subtraction wrapping. */
  function Offset(read: Read, candidatePosition: int): int
  {
    ToInt32(WrapLong(candidatePosition - read.position))
  }

  /** For positions whose distance fits in an `int` the offset is the plain difference. */
  lemma OffsetIsDifference(read: Read, candidatePosition: int)
    requires InLongRange(candidatePosition) && InLongRange(read.position)
    requires INT_MIN <= candidatePosition - read.position <= INT_MAX
    ensures Offset(read, candidatePosition) == candidatePosition - read.position
  {
  }

  predicate OffsetInRead(read: Read, candidatePosition: int)
  {
    0 <= Offset(read, candidatePosition) < |read.alignedBases|
  }

  /**
   * The base a read shows at the candidate position: `Ok(None)` for a gap '-', the allele of
   * an 'A', 'C', 'G' or 'T', and the exception substring or Allele.valueOf raises otherwise.
   */
  function BaseAtPos(read: Read, candidatePosition: int): (r: Result<Option<Allele>, CountError>)
    ensures !OffsetInRead(read, candidatePosition) <==>
      r == Err(StringIndexOutOfBounds(Offset(read, candidatePosition)))
    ensures r == Ok(None) <==>
      OffsetInRead(read, candidatePosition) && read.alignedBases[Offset(read, candidatePosition)] == '-'
    ensures forall a: Allele :: r == Ok(Some(a)) <==>
      OffsetInRead(read, candidatePosition) &&
      read.alignedBases[Offset(read, candidatePosition)] == AlleleName(a)
  {
    var offset := Offset(read, candidatePosition);
    if offset < 0 || offset + 1 > |read.alignedBases| then Err(StringIndexOutOfBounds(offset))
    else
      var baseAtPos := read.alignedBases[offset..offset + 1];
      if baseAtPos == "-" then Ok(None)
      else
        match AlleleValueOf(baseAtPos)
        case None => Err(IllegalArgument(baseAtPos))
        case Some(a) => Ok(Some(a))
  }

  /** `count.containsKey(a) ? count.get(a) : 0`. */
  function Get(count: map<Allele, nat>, a: Allele): nat
  {
    if a in count then count[a] else 0
  }

  /** The counts the constructor's loop has built after the reads of `readList`, or its exception. */
  function Tally(readList: seq<Read>, candidatePosition: int): Result<map<Allele, nat>, CountError>
    decreases |readList|
  {
    if readList == [] then Ok(map[])
    else
      match Tally(readList[..|readList| - 1], candidatePosition)
      case Err(e) => Err(e)
      case Ok(count) =>
        match BaseAtPos(readList[|readList| - 1], candidatePosition)
        case Err(e) => Err(e)
        case Ok(None) => Ok(count)
        case Ok(Some(a)) => Ok(count[a := Get(count, a) + 1])
  }

  /**
   * ReadSummary(List<Read>, Long): one pass over the readList, skipping gaps and adding one to
   * the allele each other read shows; the first read that cannot be read aborts the pass.
   */
  method CountBases(readList: seq<Read>, candidatePosition: int) returns (r: Result<map<Allele, nat>, CountError>)
    ensures r == Tally(readList, candidatePosition)
  {
    var count: map<Allele, nat> := map[];
    for i := 0 to |readList|
      invariant Tally(readList[..i], candidatePosition) == Ok(count)
    {
      assert readList[..i + 1][..i] == readList[..i];
      var baseAtPos := BaseAtPos(readList[i], candidatePosition);
      match baseAtPos
      case Err(e) =>
        TallyErrorSticks(readList, i + 1, candidatePosition);
        return Err(e);
      case Ok(None) =>
      case Ok(Some(alleleAtPos)) =>
        count := count[alleleAtPos := Get(count, alleleAtPos) + 1];
    }
    assert readList[..|readList|] == readList;
    return Ok(count);
  }

  /** Once the pass has failed, later reads do not change the outcome. */
  lemma {:induction false} TallyErrorSticks(readList: seq<Read>, k: nat, candidatePosition: int)
    requires k <= |readList| && Tally(readList[..k], candidatePosition).Err?
    ensures Tally(readList, candidatePosition) == Tally(readList[..k], candidatePosition)
    decreases |readList|
  {
    if k < |readList| {
      var front := readList[..|readList| - 1];
      assert front[..k] == readList[..k];
      TallyErrorSticks(front, k, candidatePosition);
    } else {
      assert readList[..k] == readList;
    }
  }

  // ---------------------------------------------------------------------------------------
  // What the counts mean

  /** Number of readList showing allele `a` at the candidate position. */
  function Matching(readList: seq<Read>, candidatePosition: int, a: Allele): nat
    decreases |readList|
  {
    if readList == [] then 0
    else
      var last := if BaseAtPos(readList[|readList| - 1], candidatePosition) == Ok(Some(a)) then 1 else 0;
      Matching(readList[..|readList| - 1], candidatePosition, a) + last
  }

  /** Number of readList showing a gap at the candidate position. */
  function Gaps(readList: seq<Read>, candidatePosition: int): nat
    decreases |readList|
  {
    if readList == [] then 0
    else
      var last := if BaseAtPos(readList[|readList| - 1], candidatePosition) == Ok(None) then 1 else 0;
      Gaps(readList[..|readList| - 1], candidatePosition) + last
  }

  /** The count of each allele is the number of readList showing it; only seen alleles are keys. */
  lemma {:induction false} TallyCounts(readList: seq<Read>, candidatePosition: int)
    requires Tally(readList, candidatePosition).Ok?
    ensures var count := Tally(readList, candidatePosition).value;
      forall a: Allele :: Get(count, a) == Matching(readList, candidatePosition, a) &&
        (a in count <==> Matching(readList, candidatePosition, a) > 0)
    decreases |readList|
  {
    if readList != [] {
      TallyCounts(readList[..|readList| - 1], candidatePosition);
    }
  }

  /** Every allele present in the summary was seen at least once. */
  lemma CountsArePositive(readList: seq<Read>, candidatePosition: int)
    requires Tally(readList, candidatePosition).Ok?
    ensures var count := Tally(readList, candidatePosition).value;
      forall a | a in count :: count[a] >= 1
  {
    TallyCounts(readList, candidatePosition);
  }

  /** The counts add up to the number of readList that are not gaps. */
  lemma {:induction false} TallyTotal(readList: seq<Read>, candidatePosition: int)
    requires Tally(readList, candidatePosition).Ok?
    ensures var count := Tally(readList, candidatePosition).value;
      Get(count, A) + Get(count, C) + Get(count, G) + Get(count, T) ==
        |readList| - Gaps(readList, candidatePosition)
    decreases |readList|
  {
    if readList != [] {
      var front := readList[..|readList| - 1];
      TallyTotal(front, candidatePosition);
      match BaseAtPos(readList[|readList| - 1], candidatePosition)
      case Ok(Some(a)) => IncrementTotal(Tally(front, candidatePosition).value, a);
      case _ =>
    }
  }

  /** Adding one to one allele's count adds one to the total over the four alleles. */
  lemma IncrementTotal(count: map<Allele, nat>, a: Allele)
    ensures var count' := count[a := Get(count, a) + 1];
      Get(count', A) + Get(count', C) + Get(count', G) + Get(count', T) ==
        Get(count, A) + Get(count, C) + Get(count, G) + Get(count, T) + 1
  {
  }

  /** The pass succeeds exactly when every read can be read at the candidate position. */
  lemma {:induction false} TallyOkIff(readList: seq<Read>, candidatePosition: int)
    ensures Tally(readList, candidatePosition).Ok? <==>
      forall i :: 0 <= i < |readList| ==> BaseAtPos(readList[i], candidatePosition).Ok?
    decreases |readList|
  {
    if readList != [] {
      var front := readList[..|readList| - 1];
      TallyOkIff(front, candidatePosition);
      assert forall i :: 0 <= i < |front| ==> front[i] == readList[i];
    }
  }

  /** A failed pass reports the exception of the first read that cannot be read. */
  lemma {:induction false} TallyFirstError(readList: seq<Read>, candidatePosition: int)
    requires Tally(readList, candidatePosition).Err?
    ensures exists i ::
      && 0 <= i < |readList|
      && BaseAtPos(readList[i], candidatePosition) == Err(Tally(readList, candidatePosition).error)
      && forall j :: 0 <= j < i ==> BaseAtPos(readList[j], candidatePosition).Ok?
    decreases |readList|
  {
    var front := readList[..|readList| - 1];
    assert forall j :: 0 <= j < |front| ==> front[j] == readList[j];
    if Tally(front, candidatePosition).Err? {
      TallyFirstError(front, candidatePosition);
      var i :| 0 <= i < |front| &&
        BaseAtPos(front[i], candidatePosition) == Err(Tally(front, candidatePosition).error) &&
        forall j :: 0 <= j < i ==> BaseAtPos(front[j], candidatePosition).Ok?;
      assert BaseAtPos(readList[i], candidatePosition) == Err(Tally(readList, candidatePosition).error);
    } else {
      TallyOkIff(front, candidatePosition);
      var i := |readList| - 1;
      assert BaseAtPos(readList[i], candidatePosition) == Err(Tally(readList, candidatePosition).error);
    }
  }

  /** A single read showing allele `a` yields {a=1}. */
  lemma SingleRead(read: Read, candidatePosition: int, a: Allele)
    requires BaseAtPos(read, candidatePosition) == Ok(Some(a))
    ensures Tally([read], candidatePosition) == Ok(map[a := 1])
  {
    assert [read][..0] == [];
  }

  // ---------------------------------------------------------------------------------------
  // Rendering (TreeMap.toString)

  /** The "X=n" entries of the alleles of `order` that are keys of `count`. */
  function Entries(count: map<Allele, nat>, order: seq<Allele>): (r: seq<string>)
    ensures |r| <= |order|
  {
    if order == [] then []
    else
      var rest := Entries(count, order[1..]);
      if order[0] in count then [[AlleleName(order[0])] + "=" + IntToString(count[order[0]])] + rest
      else rest
  }

  function Join(parts: seq<string>, sep: string): string
  {
    if parts == [] then "" else if |parts| == 1 then parts[0] else parts[0] + sep + Join(parts[1..], sep)
  }

  /** ReadSummary.toString: the TreeMap rendering "{A=3, C=1}", keys in allele order. */
  function CountToString(count: map<Allele, nat>): (s: string)
    ensures |s| >= 2 && s[0] == '{' && s[|s| - 1] == '}'
  {
    "{" + Join(Entries(count, ALLELES), ", ") + "}"
  }

  lemma CountToStringExamples()
    ensures CountToString(map[]) == "{}"
    ensures CountToString(map[C := 1, A := 3]) == "{A=3, C=1}"
  {
    var m := map[C := 1, A := 3];
    assert IntToString(3) == "3" && IntToString(1) == "1";
    assert ALLELES[1..] == [C, G, T] && ALLELES[1..][1..] == [G, T] && ALLELES[1..][1..][1..] == [T];
    assert Entries(m, [T]) == [];
    assert Entries(m, [G, T]) == [];
    assert [AlleleName(C)] + "=" + IntToString(m[C]) == "C=1";
    assert [AlleleName(A)] + "=" + IntToString(m[A]) == "A=3";
    assert Entries(m, [C, G, T]) == ["C=1"];
    assert Entries(m, ALLELES) == ["A=3", "C=1"];
    assert Join(["A=3", "C=1"], ", ") == "A=3, C=1";
  }

  /** The number of entries rendered is the number of keys. */
  lemma {:induction false} EntriesCount(count: map<Allele, nat>, order: seq<Allele>)
    requires forall i, j :: 0 <= i < j < |order| ==> order[i] != order[j]
    ensures |Entries(count, order)| == |set a | a in order && a in count|
  {
    if order != [] {
      var head, tail := order[0], order[1..];
      assert forall i, j :: 0 <= i < j < |tail| ==> tail[i] != tail[j] by {
        forall i, j | 0 <= i < j < |tail| ensures tail[i] != tail[j] {
          assert tail[i] == order[i + 1] && tail[j] == order[j + 1];
        }
      }
      EntriesCount(count, tail);
      assert head !in tail by {
        forall k | 0 <= k < |tail| ensures tail[k] != head {
          assert tail[k] == order[k + 1];
        }
      }
      var rest := set a | a in tail && a in count;
      var all := set a | a in order && a in count;
      if head in count {
        assert all == rest + {head};
        assert head !in rest;
      } else {
        assert all == rest;
      }
    }
  }

  /** A character that is no allele letter, digit, sign, '=' or ", " cannot occur in an entry. */
  lemma {:induction false} EntriesNoChar(count: map<Allele, nat>, order: seq<Allele>, c: char)
    requires c != '=' && c != '-' && !IsDigit(c) && forall a: Allele :: AlleleName(a) != c
    ensures forall k :: 0 <= k < |Entries(count, order)| ==> c !in Entries(count, order)[k]
  {
    if order != [] {
      EntriesNoChar(count, order[1..], c);
      if order[0] in count {
        IntToStringNoChar(count[order[0]], c);
      }
    }
  }

  lemma {:induction false} JoinNoChar(parts: seq<string>, sep: string, c: char)
    requires c !in sep && forall k :: 0 <= k < |parts| ==> c !in parts[k]
    ensures c !in Join(parts, sep)
  {
    if |parts| > 1 {
      JoinNoChar(parts[1..], sep, c);
    }
  }

  /** The rendering holds only braces, allele letters, digits, '=' and ", ". */
  lemma CountToStringNoChar(count: map<Allele, nat>, c: char)
    requires c != '{' && c != '}' && c != ',' && c != ' ' && c != '=' && c != '-' && !IsDigit(c)
    requires forall a: Allele :: AlleleName(a) != c
    ensures c !in CountToString(count)
  {
    EntriesNoChar(count, ALLELES, c);
    JoinNoChar(Entries(count, ALLELES), ", ", c);
  }

  /** A ReadSummary object: its count map is replaced wholesale by setCount. */
  class ReadSummary {
    var count: map<Allele, nat>

    /** ReadSummary(): no readList, no counts. */
    constructor ()
      ensures count == map[]
    {
      count := map[];
    }

    /** ReadSummary(Map<Allele, Integer>). */
    constructor FromCount(count: map<Allele, nat>)
      ensures this.count == count
    {
      this.count := count;
    }

    /** ReadSummary(List<Read>, Long): a fresh summary of the readList, or the exception raised. */
    static method FromReads(readList: seq<Read>, candidatePosition: int) returns (r: Result<ReadSummary, CountError>)
      ensures r.Ok? <==> Tally(readList, candidatePosition).Ok?
      ensures r.Ok? ==> fresh(r.value) && r.value.count == Tally(readList, candidatePosition).value
      ensures r.Err? ==> r.error == Tally(readList, candidatePosition).error
    {
      var counted := CountBases(readList, candidatePosition);
      if counted.Err? {
        return Err(counted.error);
      }
      var summary := new ReadSummary.FromCount(counted.value);
      return Ok(summary);
    }

    /** setCount: replace the counts and return this object. */
    method SetCount(count: map<Allele, nat>) returns (self: ReadSummary)
      modifies this
      ensures this.count == count && self == this
    {
      this.count := count;
      return this;
    }

    /** toString. */
    function ToString(): string
      reads this
    {
      CountToString(count)
    }
  }
}
