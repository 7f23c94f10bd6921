/**
 * The runner's bookkeeping: which callset and which readset belong to which trio member, and
 * how execute dispatches on the caller mode, FULL mode running the variant caller into a
 * temporary file and then the read caller over it.
 */
module DenovoRunners {
  import opened Wrappers
  import opened DenovoUtil

  /** The two fields of a callset or readset record that the runner looks at. */
  datatype CallSet = CallSet(id: string, name: string)
  datatype Readset = Readset(id: string, name: string)

  /** A trio member's configured name; `None` is a null String. */
  type Names = map<TrioIndividual, Option<string>>

  /** A member's position in declaration order (TrioMember.values()). */
  function MemberRank(p: TrioIndividual): (r: nat)
    ensures r < |TRIO| && TRIO[r] == p
  {
    match p
    case DAD => 0
    case MOM => 1
    case CHILD => 2
  }

  // ---------------------------------------------------------------------------------------
  // createCallsetNameMap

  /** createCallsetNameMap: DAD, MOM and CHILD each mapped to the matching command-line name. */
  function CreateCallsetNameMap(dadCallsetName: Option<string>, momCallsetName: Option<string>,
                                childCallsetName: Option<string>): (names: Names)
    ensures forall p: TrioIndividual :: p in names
    ensures names[DAD] == dadCallsetName && names[MOM] == momCallsetName && names[CHILD] == childCallsetName
  {
    var names := map[DAD := dadCallsetName, MOM := momCallsetName, CHILD := childCallsetName];
    assert forall p: TrioIndividual :: p in names by {
      forall p: TrioIndividual ensures p in names {
        TrioListsEveryMember(p);
      }
    }
    names
  }

  // ---------------------------------------------------------------------------------------
  // createCallsetIdMap

  /** `name.equals(names.get(p))`: false when p has no name or a null one. */
  predicate NameMatches(names: Names, p: TrioIndividual, name: string)
  {
    p in names && names[p] == Some(name)
  }

  /** The first member of `members` whose name is `name`. */
  function FirstMatchIn(names: Names, name: string, members: seq<TrioIndividual>): (r: Option<TrioIndividual>)
    ensures r.Some? ==> r.value in members && NameMatches(names, r.value, name)
    ensures r.None? ==> forall p | p in members :: !NameMatches(names, p, name)
  {
    if members == [] then None
    else if NameMatches(names, members[0], name) then Some(members[0])
    else FirstMatchIn(names, name, members[1..])
  }

  /** The member a callset named `name` is given to: the first in declaration order with that name. */
  function FirstMatch(names: Names, name: string): Option<TrioIndividual>
  {
    FirstMatchIn(names, name, TRIO)
  }

  /** A callset goes to p exactly when p has its name and no earlier member does. */
  lemma FirstMatchIsFirst(names: Names, name: string, p: TrioIndividual)
    ensures FirstMatch(names, name) == Some(p) <==>
      NameMatches(names, p, name) && forall q: TrioIndividual :: MemberRank(q) < MemberRank(p) ==> !NameMatches(names, q, name)
  {
    assert TRIO[1..] == [MOM, CHILD] && TRIO[1..][1..] == [CHILD] && TRIO[1..][1..][1..] == [];
    if NameMatches(names, DAD, name) {
      assert FirstMatch(names, name) == Some(DAD);
    } else if NameMatches(names, MOM, name) {
      assert FirstMatch(names, name) == FirstMatchIn(names, name, [MOM, CHILD]);
      assert FirstMatch(names, name) == Some(MOM);
    } else if NameMatches(names, CHILD, name) {
      assert FirstMatch(names, name) == Some(CHILD);
    } else {
      assert FirstMatch(names, name) == None;
    }
  }

  /** The callset id map after the callsets of `callsets`, in list order. */
  function CallsetIdMapOf(callsets: seq<CallSet>, names: Names): map<TrioIndividual, string>
    decreases |callsets|
  {
    if callsets == [] then map[]
    else
      var m := CallsetIdMapOf(callsets[..|callsets| - 1], names);
      var callset := callsets[|callsets| - 1];
      match FirstMatch(names, callset.name)
      case None => m
      case Some(p) => m[p := callset.id]
  }

  /**
   * A member has an id exactly when some callset goes to it, and then the id is that of the
   * last such callset in the list.
   */
  lemma {:induction false} CallsetIdMapMeaning(callsets: seq<CallSet>, names: Names, p: TrioIndividual)
    ensures p in CallsetIdMapOf(callsets, names) <==>
      exists i :: 0 <= i < |callsets| && FirstMatch(names, callsets[i].name) == Some(p)
    ensures p in CallsetIdMapOf(callsets, names) ==>
      exists i :: && 0 <= i < |callsets| && FirstMatch(names, callsets[i].name) == Some(p)
                  && CallsetIdMapOf(callsets, names)[p] == callsets[i].id
                  && forall j :: i < j < |callsets| ==> FirstMatch(names, callsets[j].name) != Some(p)
    decreases |callsets|
  {
    if callsets != [] {
      var n := |callsets| - 1;
      var front := callsets[..n];
      CallsetIdMapMeaning(front, names, p);
      assert forall i :: 0 <= i < n ==> front[i] == callsets[i];
      if FirstMatch(names, callsets[n].name) == Some(p) {
        assert CallsetIdMapOf(callsets, names)[p] == callsets[n].id;
      } else if p in CallsetIdMapOf(callsets, names) {
        var i :| && 0 <= i < n && FirstMatch(names, front[i].name) == Some(p)
                 && CallsetIdMapOf(front, names)[p] == front[i].id
                 && forall j :: i < j < n ==> FirstMatch(names, front[j].name) != Some(p);
        assert CallsetIdMapOf(callsets, names)[p] == callsets[i].id;
      }
    }
  }

  /** Two members with the same name: their callsets all go to the earlier one. */
  lemma SharedNameGoesToFirst(names: Names, name: string, p: TrioIndividual, q: TrioIndividual)
    requires NameMatches(names, p, name) && NameMatches(names, q, name) && MemberRank(p) < MemberRank(q)
    ensures FirstMatch(names, name) != Some(q)
  {
    FirstMatchIsFirst(names, name, q);
  }

  /**
   * createCallsetIdMap: for each callset in list order, give its id to the first member
   * whose name it carries (the loop breaks there); a later callset overwrites an earlier one.
   */
  method CreateCallsetIdMap(callsets: seq<CallSet>, personToCallsetNameMap: Names)
    returns (callsetIdMap: map<TrioIndividual, string>)
    ensures callsetIdMap == CallsetIdMapOf(callsets, personToCallsetNameMap)
  {
    callsetIdMap := map[];
    for i := 0 to |callsets|
      invariant callsetIdMap == CallsetIdMapOf(callsets[..i], personToCallsetNameMap)
    {
      var callset := callsets[i];
      var callsetName := callset.name;
      var j := 0;
      while j < |TRIO|
        invariant 0 <= j <= |TRIO|
        invariant FirstMatch(personToCallsetNameMap, callsetName) == FirstMatchIn(personToCallsetNameMap, callsetName, TRIO[j..])
        invariant callsetIdMap == CallsetIdMapOf(callsets[..i], personToCallsetNameMap)
      {
        var person := TRIO[j];
        if person in personToCallsetNameMap && personToCallsetNameMap[person] == Some(callsetName) {
          callsetIdMap := callsetIdMap[person := callset.id];
          break;
        }
        assert TRIO[j..][1..] == TRIO[j + 1..];
        j := j + 1;
      }
      assert callsets[..i + 1][..i] == callsets[..i];
    }
    assert callsets[..|callsets|] == callsets;
  }

  // ---------------------------------------------------------------------------------------
  // createReadsetIdMap

  /** The id of the last readset of `readsets` named `name`, if any. */
  function LastReadsetId(readsets: seq<Readset>, name: Option<string>): (r: Option<string>)
    decreases |readsets|
  {
    if readsets == [] then None
    else if Some(readsets[|readsets| - 1].name) == name then Some(readsets[|readsets| - 1].id)
    else LastReadsetId(readsets[..|readsets| - 1], name)
  }

  /** The configured name of p, null when p has none. */
  function NameOf(names: Names, p: TrioIndividual): Option<string>
  {
    if p in names then names[p] else None
  }

  /** The last readset id is that of a readset with the name, after which none has it. */
  lemma {:induction false} LastReadsetIdMeaning(readsets: seq<Readset>, name: Option<string>)
    ensures LastReadsetId(readsets, name).None? <==> forall i :: 0 <= i < |readsets| ==> Some(readsets[i].name) != name
    ensures LastReadsetId(readsets, name).Some? ==>
      exists i :: && 0 <= i < |readsets| && Some(readsets[i].name) == name
                  && LastReadsetId(readsets, name).value == readsets[i].id
                  && forall j :: i < j < |readsets| ==> Some(readsets[j].name) != name
    decreases |readsets|
  {
    if readsets != [] {
      var n := |readsets| - 1;
      var front := readsets[..n];
      LastReadsetIdMeaning(front, name);
      assert forall i :: 0 <= i < n ==> front[i] == readsets[i];
    }
  }

  /** The complete readset map: each member with a readset of its name gets the last one's id. */
  function ReadsetIdMapOf(readsets: seq<Readset>, names: Names): (m: map<TrioIndividual, string>)
    ensures forall p: TrioIndividual :: p in m <==> LastReadsetId(readsets, NameOf(names, p)).Some?
    ensures forall p | p in m :: m[p] == LastReadsetId(readsets, NameOf(names, p)).value
  {
    map p: TrioIndividual | LastReadsetId(readsets, NameOf(names, p)).Some? :: LastReadsetId(readsets, NameOf(names, p)).value
  }

  /** A map keyed by trio members has size 3 exactly when every member is a key. */
  lemma TrioMapFull<V>(m: map<TrioIndividual, V>)
    ensures |m| == 3 <==> forall p: TrioIndividual :: p in m
  {
    var all := {DAD, MOM, CHILD};
    assert m.Keys <= all by {
      forall p | p in m.Keys ensures p in all {
        TrioListsEveryMember(p);
      }
    }
    if DAD !in m {
      SubsetSize(m.Keys, {MOM, CHILD});
    } else if MOM !in m {
      SubsetSize(m.Keys, {DAD, CHILD});
    } else if CHILD !in m {
      SubsetSize(m.Keys, {DAD, MOM});
    } else {
      assert m.Keys == all;
      forall p: TrioIndividual ensures p in m {
        TrioListsEveryMember(p);
      }
    }
  }

  /**
   * createReadsetIdMap (with the readset search replaced by its result list): for each member
   * in declaration order, every readset carrying its name is put, so the last one wins and a
   * readset may serve several members; unless all three members end up mapped,
   * IllegalStateException.
   */
  method CreateReadsetIdMap(readsets: seq<Readset>, callsetNameMap: Names)
    returns (r: Result<map<TrioIndividual, string>, string>)
    ensures r.Ok? <==> forall p: TrioIndividual :: LastReadsetId(readsets, NameOf(callsetNameMap, p)).Some?
    ensures r.Ok? ==> r.value == ReadsetIdMapOf(readsets, callsetNameMap)
    ensures r.Err? ==> r.error == "Borked readsetIdMap"
  {
    var readsetIdMap: map<TrioIndividual, string> := map[];
    for i := 0 to |TRIO|
      invariant forall p: TrioIndividual :: p in readsetIdMap <==>
        (MemberRank(p) < i && LastReadsetId(readsets, NameOf(callsetNameMap, p)).Some?)
      invariant forall p | p in readsetIdMap :: readsetIdMap[p] == LastReadsetId(readsets, NameOf(callsetNameMap, p)).value
    {
      var person := TRIO[i];
      readsetIdMap := PutMatchingReadsets(readsetIdMap, readsets, callsetNameMap, person);
    }
    TrioMapFull(readsetIdMap);
    if |readsetIdMap| != 3 {
      return Err("Borked readsetIdMap");
    }
    assert readsetIdMap == ReadsetIdMapOf(readsets, callsetNameMap);
    return Ok(readsetIdMap);
  }

  /** The inner loop of createReadsetIdMap for one member: put the id of each readset with its name. */
  method PutMatchingReadsets(m0: map<TrioIndividual, string>, readsets: seq<Readset>, callsetNameMap: Names,
                             person: TrioIndividual)
    returns (readsetIdMap: map<TrioIndividual, string>)
    requires person !in m0
    ensures person in readsetIdMap <==> LastReadsetId(readsets, NameOf(callsetNameMap, person)).Some?
    ensures person in readsetIdMap ==> readsetIdMap[person] == LastReadsetId(readsets, NameOf(callsetNameMap, person)).value
    ensures forall p | p != person :: (p in readsetIdMap <==> p in m0) && (p in m0 ==> readsetIdMap[p] == m0[p])
  {
    readsetIdMap := m0;
    for k := 0 to |readsets|
      invariant person in readsetIdMap <==> LastReadsetId(readsets[..k], NameOf(callsetNameMap, person)).Some?
      invariant person in readsetIdMap ==>
        readsetIdMap[person] == LastReadsetId(readsets[..k], NameOf(callsetNameMap, person)).value
      invariant forall p | p != person :: (p in readsetIdMap <==> p in m0) && (p in m0 ==> readsetIdMap[p] == m0[p])
    {
      var readset := readsets[k];
      var sampleName := readset.name;
      var readsetId := readset.id;
      assert readsets[..k + 1][..k] == readsets[..k];
      if person in callsetNameMap && callsetNameMap[person] == Some(sampleName) {
        readsetIdMap := readsetIdMap[person := readsetId];
      }
    }
    assert readsets[..|readsets|] == readsets;
  }

  // ---------------------------------------------------------------------------------------
  // execute

  datatype CallerMode = VARIANT | READ | FULL

  /** A caller run, with the files it reads and writes. */
  datatype Run = VariantRun(outputFileName: string) | ReadRun(inputFileName: string, outputFileName: string)

  /** The command-line fields execute reads and rewrites; a `None` caller or input is null. */
  class CommandLine {
    var caller: Option<CallerMode>
    var inputFileName: Option<string>
    var outputFileName: string

    constructor (caller: Option<CallerMode>, inputFileName: Option<string>, outputFileName: string)
      ensures this.caller == caller && this.inputFileName == inputFileName && this.outputFileName == outputFileName
    {
      this.caller := caller;
      this.inputFileName := inputFileName;
      this.outputFileName := outputFileName;
    }
  }

  /** Rank of a mode for the recursion of FULL into the other two. */
  function ModeRank(caller: Option<CallerMode>): nat
  {
    if caller == Some(FULL) then 1 else 0
  }

  /** A runner: the settings it copied from the command line when built, and the command line. */
  class DenovoRunner {
    const caller: Option<CallerMode>
    const inputFileName: Option<string>
    const outputFileName: string
    const cmdLine: CommandLine

    /** initFromCommandLine, with the API lookups left out: snapshot the fields. */
    constructor (cmdLine: CommandLine)
      ensures this.cmdLine == cmdLine
      ensures caller == cmdLine.caller && inputFileName == cmdLine.inputFileName
      ensures outputFileName == cmdLine.outputFileName
    {
      this.cmdLine := cmdLine;
      caller := cmdLine.caller;
      inputFileName := cmdLine.inputFileName;
      outputFileName := cmdLine.outputFileName;
    }

    /**
     * execute: run the variant caller, or the read caller when an input file is set; READ
     * without one and an unknown mode raise IllegalArgumentException. FULL rewrites the command
     * line and runs twice: VARIANT into out + ".tmp", then READ from there into out.
     */
    method Execute() returns (r: Result<seq<Run>, string>)
      modifies cmdLine
      decreases ModeRank(caller)
      ensures caller == Some(VARIANT) ==> r == Ok([VariantRun(outputFileName)])
      ensures caller == Some(READ) && inputFileName.Some? ==> r == Ok([ReadRun(inputFileName.value, outputFileName)])
      ensures caller == Some(READ) && inputFileName.None? ==> r == Err("Input calls file needed for read mode")
      ensures caller == Some(FULL) ==>
        r == Ok([VariantRun(outputFileName + ".tmp"), ReadRun(outputFileName + ".tmp", outputFileName)])
      ensures caller == Some(FULL) ==>
        cmdLine.caller == Some(READ) && cmdLine.inputFileName == Some(outputFileName + ".tmp") &&
        cmdLine.outputFileName == outputFileName
      ensures caller == None ==> r == Err("Unknown caller mode : null")
      ensures caller != Some(FULL) ==> unchanged(cmdLine)
    {
      if caller == Some(VARIANT) {
        r := Ok([VariantRun(outputFileName)]);
      } else if caller == Some(READ) && inputFileName.Some? {
        r := Ok([ReadRun(inputFileName.value, outputFileName)]);
      } else if caller == Some(READ) && inputFileName.None? {
        r := Err("Input calls file needed for read mode");
      } else if caller == Some(FULL) {
        var outFile := outputFileName;
        var tempOutFile := outFile + ".tmp";
        cmdLine.outputFileName := tempOutFile;
        cmdLine.caller := Some(VARIANT);
        var first := new DenovoRunner(cmdLine);
        var r1 := first.Execute();
        cmdLine.inputFileName := Some(tempOutFile);
        cmdLine.outputFileName := outFile;
        cmdLine.caller := Some(READ);
        var second := new DenovoRunner(cmdLine);
        var r2 := second.Execute();
        assert r1 == Ok([VariantRun(tempOutFile)]);
        assert r2 == Ok([ReadRun(tempOutFile, outFile)]);
        r := Ok(r1.value + r2.value);
        assert r1.value + r2.value == [VariantRun(tempOutFile), ReadRun(tempOutFile, outFile)];
      } else {
        r := Err("Unknown caller mode : null");
      }
    }
  }

  /**
   * Example: in FULL mode the variant caller's output file is the read caller's input, and
   * the read caller writes the configured output file.
   */
  method FullModeChainsRuns(out: string)
  {
    var cmdLine := new CommandLine(Some(FULL), None, out);
    var runner := new DenovoRunner(cmdLine);
    var r := runner.Execute();
    assert r.Ok? && |r.value| == 2;
    assert r.value[0].outputFileName == r.value[1].inputFileName;
    assert r.value[1].outputFileName == out;
  }
}
