/** The workbench's compile card: the compiler's standard error grouped into
    coloured blocks, the "Compilation Failed" alert, and the deploy tab, which
    picks the first JSON artifact of a successful compilation and deploys it. */
module CompileCard {
  import opened Wrappers
  import opened Text

  // ---------------------------------------------------------------------------
  // Grouping the standard error into blocks

  datatype Color = TextWarning | TextError | TextSuccess

  /** A run of consecutive lines shown in one colour. */
  datatype Block = Block(lines: seq<string>, color: Color)

  predicate IsWarning(line: string) { StartsWith(line, "warning:") }

  predicate IsError(line: string) { StartsWith(line, "error:") || StartsWith(line, "Aborting due") }

  predicate IsBlank(line: string) { Trim(line) == "" }

  /** A line that always opens a block of its own. */
  predicate Opens(line: string) { IsWarning(line) || IsError(line) || IsBlank(line) }

  /** The colour of a block that `line` opens. */
  function ColorOf(line: string): Color
  {
    if IsWarning(line) then TextWarning else if IsError(line) then TextError else TextSuccess
  }

  /** One step of the `reduce`: a warning, error or blank line opens a block of
      its colour; any other line continues the last block unless that block is a
      success block (or there is none), in which case it opens a success block. */
  function Step(acc: seq<Block>, line: string): seq<Block>
  {
    if IsWarning(line) then acc + [Block([line], TextWarning)]
    else if IsError(line) then acc + [Block([line], TextError)]
    else if IsBlank(line) then acc + [Block([line], TextSuccess)]
    else if |acc| > 0 && acc[|acc| - 1].color != TextSuccess then
      acc[..|acc| - 1] + [Block(acc[|acc| - 1].lines + [line], acc[|acc| - 1].color)]
    else acc + [Block([line], TextSuccess)]
  }

  /** The `reduce` over the lines, from the left. */
  function Group(lines: seq<string>): seq<Block>
  {
    if lines == [] then [] else Step(Group(lines[..|lines| - 1]), lines[|lines| - 1])
  }

  /** All the blocks' lines, in order. */
  function Flatten(blocks: seq<Block>): seq<string>
  {
    if blocks == [] then [] else Flatten(blocks[..|blocks| - 1]) + blocks[|blocks| - 1].lines
  }

  /** What a grouping must look like, independently of how it is computed: no
      block is empty; a block's colour is the one its first line gives; only a
      warning or error block has more than one line, and none of its later lines
      would open a block; and a block follows a success block unless its first
      line opens one. */
  ghost predicate WellGrouped(blocks: seq<Block>)
  {
    (forall i :: 0 <= i < |blocks| ==> |blocks[i].lines| > 0 && blocks[i].color == ColorOf(blocks[i].lines[0]))
    && (forall i, k :: 0 <= i < |blocks| && 0 < k < |blocks[i].lines| ==>
          !Opens(blocks[i].lines[k]) && blocks[i].color != TextSuccess)
    && (forall i :: 0 < i < |blocks| ==> Opens(blocks[i].lines[0]) || blocks[i - 1].color == TextSuccess)
  }

  /** The colour-coded rendering of `stderr`: the blocks the `reduce` builds. */
  method GroupStderr(stderr: string) returns (blocks: seq<Block>)
    ensures blocks == Group(Split(stderr, '\n'))
    ensures WellGrouped(blocks) && Flatten(blocks) == Split(stderr, '\n')
  {
    var lines := Split(stderr, '\n');
    blocks := [];
    for i := 0 to |lines|
      invariant blocks == Group(lines[..i])
    {
      var line := lines[i];
      assert lines[..i + 1][..i] == lines[..i];
      if StartsWith(line, "warning:") {
        blocks := blocks + [Block([line], TextWarning)];
      } else if StartsWith(line, "error:") || StartsWith(line, "Aborting due") {
        blocks := blocks + [Block([line], TextError)];
      } else if Trim(line) == "" {
        blocks := blocks + [Block([line], TextSuccess)];
      } else if |blocks| > 0 && blocks[|blocks| - 1].color != TextSuccess {
        var last := blocks[|blocks| - 1];
        blocks := blocks[..|blocks| - 1] + [Block(last.lines + [line], last.color)];
      } else {
        blocks := blocks + [Block([line], TextSuccess)];
      }
    }
    assert lines[..|lines|] == lines;
    GroupWellGrouped(lines);
  }

  /** Flattening a sequence that ends in `b`. */
  lemma FlattenSnoc(blocks: seq<Block>, b: Block)
    ensures Flatten(blocks + [b]) == Flatten(blocks) + b.lines
  {
    assert (blocks + [b])[..|blocks|] == blocks;
  }

  /** No block is empty, so there are never more blocks than lines. */
  lemma {:induction false} FlattenLength(blocks: seq<Block>)
    requires forall i :: 0 <= i < |blocks| ==> |blocks[i].lines| > 0
    ensures |blocks| <= |Flatten(blocks)|
  {
    if blocks != [] {
      FlattenLength(blocks[..|blocks| - 1]);
    }
  }

  /** A step either opens a block of the line's colour or extends the last one. */
  lemma StepShape(acc: seq<Block>, line: string)
    ensures if !Opens(line) && |acc| > 0 && acc[|acc| - 1].color != TextSuccess
            then Step(acc, line) == acc[..|acc| - 1] + [Block(acc[|acc| - 1].lines + [line], acc[|acc| - 1].color)]
            else Step(acc, line) == acc + [Block([line], ColorOf(line))]
  {
  }

  /** Opening a block keeps a grouping well formed when the line opens one or the
      block before it is a success block. */
  lemma PushWellGrouped(acc: seq<Block>, line: string)
    requires WellGrouped(acc)
    requires Opens(line) || acc == [] || acc[|acc| - 1].color == TextSuccess
    ensures WellGrouped(acc + [Block([line], ColorOf(line))])
  {
    var r := acc + [Block([line], ColorOf(line))];
    assert forall i :: 0 <= i < |acc| ==> r[i] == acc[i];
  }

  /** Extending a warning or error block by a line that opens nothing keeps a
      grouping well formed. */
  lemma ExtendWellGrouped(acc: seq<Block>, line: string)
    requires WellGrouped(acc) && |acc| > 0 && acc[|acc| - 1].color != TextSuccess && !Opens(line)
    ensures WellGrouped(acc[..|acc| - 1] + [Block(acc[|acc| - 1].lines + [line], acc[|acc| - 1].color)])
  {
    var n := |acc|;
    var last := acc[n - 1];
    var r := acc[..n - 1] + [Block(last.lines + [line], last.color)];
    assert forall i :: 0 <= i < n - 1 ==> r[i] == acc[i];
    assert r[n - 1].lines[0] == last.lines[0] && r[n - 1].color == last.color;
    forall i | 0 <= i < |r|
      ensures |r[i].lines| > 0 && r[i].color == ColorOf(r[i].lines[0])
    {
      if i < n - 1 {
        assert r[i] == acc[i];
      }
    }
    forall i, k | 0 <= i < |r| && 0 < k < |r[i].lines|
      ensures !Opens(r[i].lines[k]) && r[i].color != TextSuccess
    {
      if i < n - 1 {
        assert r[i] == acc[i];
      } else if k < |last.lines| {
        assert r[i].lines[k] == acc[i].lines[k];
      }
    }
    forall i | 0 < i < |r|
      ensures Opens(r[i].lines[0]) || r[i - 1].color == TextSuccess
    {
      assert r[i - 1] == acc[i - 1];
      if i < n - 1 {
        assert r[i] == acc[i];
      } else {
        assert r[i].lines[0] == acc[i].lines[0];
      }
    }
    assert WellGrouped(r);
  }

  /** One step keeps a grouping well formed. */
  lemma StepWellGrouped(acc: seq<Block>, line: string)
    requires WellGrouped(acc)
    ensures WellGrouped(Step(acc, line))
  {
    StepShape(acc, line);
    if !Opens(line) && |acc| > 0 && acc[|acc| - 1].color != TextSuccess {
      ExtendWellGrouped(acc, line);
    } else {
      PushWellGrouped(acc, line);
    }
  }

  /** One step adds its line at the end of the flattened lines. */
  lemma StepFlatten(acc: seq<Block>, line: string)
    ensures Flatten(Step(acc, line)) == Flatten(acc) + [line]
  {
    StepShape(acc, line);
    if !Opens(line) && |acc| > 0 && acc[|acc| - 1].color != TextSuccess {
      var last := acc[|acc| - 1];
      var front := acc[..|acc| - 1];
      assert acc == front + [last];
      FlattenSnoc(front, last);
      FlattenSnoc(front, Block(last.lines + [line], last.color));
    } else {
      FlattenSnoc(acc, Block([line], ColorOf(line)));
    }
  }

  /** The grouping is well formed and its blocks' lines are exactly the input
      lines, in order; hence there are at most as many blocks as lines. */
  lemma {:induction false} GroupWellGrouped(lines: seq<string>)
    ensures WellGrouped(Group(lines)) && Flatten(Group(lines)) == lines
    ensures |Group(lines)| <= |lines|
  {
    if lines != [] {
      var init := lines[..|lines| - 1];
      var line := lines[|lines| - 1];
      GroupWellGrouped(init);
      assert init + [line] == lines;
      assert Group(lines) == Step(Group(init), line);
      StepWellGrouped(Group(init), line);
      StepFlatten(Group(init), line);
      FlattenLength(Group(lines));
    }
  }

  /** Dropping the last block keeps a grouping well formed. */
  lemma DropLastWellGrouped(blocks: seq<Block>)
    requires WellGrouped(blocks) && blocks != []
    ensures WellGrouped(blocks[..|blocks| - 1])
  {
    var r := blocks[..|blocks| - 1];
    assert forall i :: 0 <= i < |r| ==> r[i] == blocks[i];
  }

  /** Dropping the last line of a last block that has more than one keeps a
      grouping well formed. */
  lemma ShortenLastWellGrouped(blocks: seq<Block>)
    requires WellGrouped(blocks) && blocks != [] && |blocks[|blocks| - 1].lines| > 1
    ensures var last := blocks[|blocks| - 1];
      WellGrouped(blocks[..|blocks| - 1] + [Block(last.lines[..|last.lines| - 1], last.color)])
  {
    var n := |blocks|;
    var last := blocks[n - 1];
    var r := blocks[..n - 1] + [Block(last.lines[..|last.lines| - 1], last.color)];
    assert forall i :: 0 <= i < n - 1 ==> r[i] == blocks[i];
    assert r[n - 1].lines[0] == last.lines[0];
    forall i | 0 <= i < |r| ensures |r[i].lines| > 0 && r[i].color == ColorOf(r[i].lines[0]) {
      if i == n - 1 {
        assert r[i].lines[0] == blocks[i].lines[0];
      }
    }
    forall i | 0 < i < |r| ensures Opens(r[i].lines[0]) || r[i - 1].color == TextSuccess {
      assert r[i - 1] == blocks[i - 1];
      assert r[i].lines[0] == blocks[i].lines[0];
    }
    forall i, k | 0 <= i < |r| && 0 < k < |r[i].lines|
      ensures !Opens(r[i].lines[k]) && r[i].color != TextSuccess
    {
      if i == n - 1 {
        assert r[i].lines[k] == blocks[i].lines[k];
      }
    }
    assert WellGrouped(r);
  }

  /** The grouping is the only well-formed one: any blocks that are well formed
      and flatten to `lines` are the ones the `reduce` builds. */
  lemma {:induction false} GroupUnique(blocks: seq<Block>, lines: seq<string>)
    requires WellGrouped(blocks) && Flatten(blocks) == lines
    ensures blocks == Group(lines)
    decreases |lines|
  {
    if blocks == [] {
      assert lines == [];
    } else {
      var n := |blocks|;
      var last := blocks[n - 1];
      var front := blocks[..n - 1];
      assert blocks == front + [last];
      FlattenSnoc(front, last);
      var m := |last.lines|;
      var line := last.lines[m - 1];
      assert lines[|lines| - 1] == line;
            if m == 1 {
        assert last.lines == [line];
        assert lines[..|lines| - 1] == Flatten(front);
        DropLastWellGrouped(blocks);
        GroupUnique(front, Flatten(front));
        StepShape(front, line);
        if n > 1 {
          assert Opens(last.lines[0]) || blocks[n - 2].color == TextSuccess;
        }
      } else {
        var shorter := Block(last.lines[..m - 1], last.color);
        var blocks' := front + [shorter];
        FlattenSnoc(front, shorter);
        assert last.lines == shorter.lines + [line];
        assert lines[..|lines| - 1] == Flatten(blocks');
        assert !Opens(last.lines[m - 1]) && last.color != TextSuccess;
        ShortenLastWellGrouped(blocks);
        GroupUnique(blocks', Flatten(blocks'));
        StepShape(blocks', line);
        assert blocks'[..n - 1] == front;
      }
    }
  }

  // ---------------------------------------------------------------------------
  // What the compile tab shows

  /** The "Compilation Failed" alert: a non-empty standard error that mentions `Aborting due`. */
  predicate ShowsFailureAlert(stderr: Option<string>)
  {
    stderr.Some? && stderr.value != "" && Contains(stderr.value, "Aborting due")
  }

  /** The alert shows exactly when the standard error mentions `Aborting due`
      (an empty one cannot). */
  lemma FailureAlertIff(stderr: Option<string>)
    ensures ShowsFailureAlert(stderr) <==> stderr.Some? && Contains(stderr.value, "Aborting due")
  {
    if stderr.Some? && stderr.value == "" {
      assert !StartsWith(stderr.value[0..], "Aborting due");
    }
  }

  /** A line starting with `Aborting due` (which opens an error block) always
      brings up the alert. */
  lemma AbortingLineShowsAlert(stderr: string, k: nat)
    requires k < |Split(stderr, '\n')| && StartsWith(Split(stderr, '\n')[k], "Aborting due")
    ensures ShowsFailureAlert(Some(stderr))
  {
    var line := Split(stderr, '\n')[k];
    assert IndexOf(line, "Aborting due") == Some(0);
    ContainsInJoin(Split(stderr, '\n'), '\n', k, "Aborting due");
    JoinSplit(stderr, '\n');
    FailureAlertIff(Some(stderr));
  }

  // ---------------------------------------------------------------------------
  // The deploy tab

  /** `Object.keys(artifacts).find(key => key.endsWith('.json'))`. */
  function FirstJsonKey(keys: seq<string>): (r: Option<string>)
    ensures r.Some? ==> exists i :: 0 <= i < |keys| && keys[i] == r.value && EndsWith(r.value, ".json")
                          && forall j :: 0 <= j < i ==> !EndsWith(keys[j], ".json")
    ensures r.None? <==> forall k :: k in keys ==> !EndsWith(k, ".json")
  {
    if keys == [] then None
    else if EndsWith(keys[0], ".json") then
      Some(keys[0])
    else
      var r := FirstJsonKey(keys[1..]);
      if r.Some? then
        var i :| 0 <= i < |keys[1..]| && keys[1..][i] == r.value && EndsWith(r.value, ".json")
                 && forall j :: 0 <= j < i ==> !EndsWith(keys[1..][j], ".json");
        assert keys[i + 1] == r.value && forall j :: 0 <= j < i + 1 ==> !EndsWith(keys[j], ".json");
        r
      else
        assert forall k :: k in keys ==> k == keys[0] || k in keys[1..];
        r
  }

  /** What deploying the chosen artifact does; standing in for `JSON.parse`,
      `getPXEClient` and `deployContract`, whose failures are thrown values. A
      thrown value that is not an `Error` carries no message. */
  datatype DeployOutcome = Deployed(address: string) | Threw(message: Option<string>)

  datatype DeployResult = DeploySucceeded(address: string) | DeployFailed(error: string)

  const NoJsonArtifact: string := "No JSON artifact found"
  const DeployFallback: string := "Failed to deploy contract"

  /** The result the `try`/`catch` records, given the chosen key. */
  function DeployReport(key: Option<string>, outcome: DeployOutcome): (r: DeployResult)
    ensures key.None? ==> r == DeployFailed(NoJsonArtifact)
    ensures r.DeploySucceeded? <==> key.Some? && outcome.Deployed?
    ensures r.DeploySucceeded? ==> r.address == outcome.address
    ensures key.Some? && outcome.Threw? ==>
      r.error == (if outcome.message.Some? then outcome.message.value else DeployFallback)
  {
    if key.None? then DeployFailed(NoJsonArtifact)
    else match outcome
      case Deployed(a) => DeploySucceeded(a)
      case Threw(m) => DeployFailed(if m.Some? then m.value else DeployFallback)
  }

  /** In terms of the artifact record's keys: deploying succeeds exactly when some
      key ends in `.json` and the deploy itself succeeds, with the deployed
      address; with no such key the message is `No JSON artifact found` whatever
      deploying would have done; otherwise a thrown `Error`'s own message is shown. */
  lemma DeployReportFromKeys(keys: seq<string>, outcome: DeployOutcome)
    ensures var r := DeployReport(FirstJsonKey(keys), outcome);
      (r.DeploySucceeded? <==> (exists k :: k in keys && EndsWith(k, ".json")) && outcome.Deployed?)
      && (r.DeploySucceeded? ==> r.address == outcome.address)
      && ((forall k :: k in keys ==> !EndsWith(k, ".json")) ==> r == DeployFailed(NoJsonArtifact))
      && ((exists k :: k in keys && EndsWith(k, ".json")) && outcome.Threw? && outcome.message.Some? ==>
            r == DeployFailed(outcome.message.value))
      && ((exists k :: k in keys && EndsWith(k, ".json")) && outcome == Threw(None) ==>
            r == DeployFailed(DeployFallback))
  {
  }

  /** The alert under the deploy button. */
  datatype DeployAlert = SuccessAlert(address: Option<string>) | FailureAlert(error: Option<string>)

  /** The alert shows when a contract is deployed or a result is recorded; its
      success form needs a successful result and shows the deployed contract's
      address, otherwise it shows the recorded error, if any. */
  function Alert(deployed: Option<string>, result: Option<DeployResult>): (r: Option<DeployAlert>)
    ensures r.None? <==> deployed.None? && result.None?
    ensures r.Some? && r.value.SuccessAlert? <==> result.Some? && result.value.DeploySucceeded?
  {
    if deployed.None? && result.None? then None
    else if result.Some? && result.value.DeploySucceeded? then Some(SuccessAlert(deployed))
    else if result.Some? then Some(FailureAlert(Some(result.value.error)))
    else Some(FailureAlert(None))
  }

  /** The deploy tab's state and the shared deployed-contract value (its address). */
  class DeployCard {
    var deploying: bool
    var result: Option<DeployResult>
    var deployed: Option<string>
    /** Every value `deploying` has been set to, in order. */
    ghost var deployingTrace: seq<bool>

    constructor (deployed: Option<string>)
      ensures !deploying && result.None? && this.deployed == deployed && deployingTrace == []
    {
      deploying := false;
      result := None;
      this.deployed := deployed;
      deployingTrace := [];
    }

    /** `handleDeploy`, given the artifact record's keys in order (`None` when the
        compilation result has no artifacts) and what deploying would do. */
    method HandleDeploy(artifactKeys: Option<seq<string>>, outcome: DeployOutcome)
      modifies this
      ensures artifactKeys.None? ==>
        deploying == old(deploying) && result == old(result) && deployed == old(deployed)
        && deployingTrace == old(deployingTrace)
      ensures artifactKeys.Some? ==>
        var key := FirstJsonKey(artifactKeys.value);
        !deploying && deployingTrace == old(deployingTrace) + [true, false]
        && result == Some(DeployReport(key, outcome))
        && deployed == (if key.Some? && outcome.Deployed? then Some(outcome.address) else old(deployed))
    {
      if artifactKeys.None? {
        return;
      }
      deploying := true;
      deployingTrace := deployingTrace + [true];
      result := None;
      var key := FirstJsonKey(artifactKeys.value);
      if key.None? {
        result := Some(DeployFailed(NoJsonArtifact));
      } else {
        match outcome
        case Deployed(address) =>
          deployed := Some(address);
          result := Some(DeploySucceeded(address));
        case Threw(message) =>
          result := Some(DeployFailed(if message.Some? then message.value else DeployFallback));
      }
      // finally
      deploying := false;
      deployingTrace := deployingTrace + [false];
    }
  }

  /** After a deploy that succeeded, the alert is the success one and shows the
      new contract's address; after one that failed, it shows the failure's message. */
  lemma DeployAlertAfterHandle(keys: seq<string>, outcome: DeployOutcome, before: Option<string>)
    ensures var key := FirstJsonKey(keys);
      var after := if key.Some? && outcome.Deployed? then Some(outcome.address) else before;
      var r := DeployReport(key, outcome);
      (r.DeploySucceeded? ==> Alert(after, Some(r)) == Some(SuccessAlert(Some(outcome.address))))
      && (r.DeployFailed? ==> Alert(after, Some(r)) == Some(FailureAlert(Some(r.error))))
  {
  }
}
