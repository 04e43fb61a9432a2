/** FoldManagerImpl: the folding ranges a server reports for a file, turned into code-block
    folds of the editor document, and the fold manager's registration as a background task. */
module Folds {
  import opened Wrappers
  import opened Files
  import opened Protocol
  import opened Capabilities
  import opened WorkingPool

  /** FoldType.CODE_BLOCK, the only type this manager produces. */
  datatype FoldType = CodeBlock

  /** FoldInfo.range(start, end, type): document offsets of a fold. */
  datatype FoldInfo = FoldInfo(start: int, end: int, kind: FoldType)

  /** What waiting on the foldingRange request gives: the server's list (which may be null) or
      an InterruptedException / ExecutionException. */
  datatype RangeReply = Answered(ranges: Option<seq<FoldingRange>>) | RequestFailed

  /** computeRanges: the server is asked only when it announces folding support, and an
      unsupported server or a failed request gives the empty list. The capabilities wrapper is
      not guarded against a null original, so asking it then faults. */
  function ComputeRanges(initResult: LspInitializeResult, reply: RangeReply): (r: Result<Option<seq<FoldingRange>>>)
    ensures r.Failure? <==> initResult.capabilities.raw.None?
    ensures r.Success? && HasFoldingRangeSupport(initResult.capabilities) == Success(false) ==> r.value == Some([])
    ensures r.Success? && reply.RequestFailed? ==> r.value == Some([])
    ensures r.Success? && HasFoldingRangeSupport(initResult.capabilities) == Success(true) && reply.Answered? ==>
      r.value == reply.ranges
  {
    match HasFoldingRangeSupport(initResult.capabilities)
    case Failure(f) => Failure(f)
    case Success(supported) =>
      if supported && reply.Answered? then Success(reply.ranges) else Success(Some([]))
  }

  /** Where a fold starts: the range's start line, at its start character or 0 when absent. */
  function StartPosition(r: FoldingRange): Position {
    Position(r.startLine, r.startCharacter.GetOr(0))
  }

  /** The fold for one range; `offset` is Utils.getOffset on the document. An absent end
      character ends the fold one offset before the start of the line after the end line. */
  function RangeToFold(r: FoldingRange, offset: Position -> int): (f: FoldInfo)
    ensures f.kind == CodeBlock
    ensures f.start == offset(StartPosition(r))
  {
    var start := offset(StartPosition(r));
    var end := if r.endCharacter.None? then offset(Position(r.endLine + 1, 0)) - 1
               else offset(Position(r.endLine, r.endCharacter.value));
    FoldInfo(start, end, CodeBlock)
  }

  /** One fold per range, in the order of the ranges. */
  function FoldsOf(ranges: seq<FoldingRange>, offset: Position -> int): (fs: seq<FoldInfo>)
    ensures |fs| == |ranges|
    ensures forall i :: 0 <= i < |ranges| ==> fs[i] == RangeToFold(ranges[i], offset)
  {
    seq(|ranges|, i requires 0 <= i < |ranges| => RangeToFold(ranges[i], offset))
  }

  /** `p` is not after `q` in the document. */
  predicate NotAfter(p: Position, q: Position) {
    p.line < q.line || (p.line == q.line && p.character <= q.character)
  }

  /** An offset function that never puts a later position before an earlier one. */
  ghost predicate Monotone(offset: Position -> int) {
    forall p, q :: NotAfter(p, q) ==> offset(p) <= offset(q)
  }

  /** The defaulting rules give well-formed folds: with a monotone offset function, a range
      whose end character is given and whose end is not before its start yields start <= end;
      a range without an end character whose start line does not pass its end line yields a
      fold that reaches to the end of its end line, starting no later than that. */
  lemma FoldBounds(r: FoldingRange, offset: Position -> int)
    requires Monotone(offset)
    ensures r.endCharacter.Some? && NotAfter(StartPosition(r), Position(r.endLine, r.endCharacter.value)) ==>
      RangeToFold(r, offset).start <= RangeToFold(r, offset).end
    ensures r.endCharacter.None? ==> RangeToFold(r, offset).end + 1 == offset(Position(r.endLine + 1, 0))
    ensures r.endCharacter.None? && r.startLine <= r.endLine ==>
      RangeToFold(r, offset).start <= RangeToFold(r, offset).end + 1
  {
    if r.endCharacter.Some? {
      var e := Position(r.endLine, r.endCharacter.value);
      if NotAfter(StartPosition(r), e) {
        assert offset(StartPosition(r)) <= offset(e);
      }
    } else if r.startLine <= r.endLine {
      assert NotAfter(StartPosition(r), Position(r.endLine + 1, 0));
    }
  }

  /** A missing start character is the same as an explicit 0, and the fold's start does not
      depend on the end character. */
  lemma MissingStartCharacterIsZero(r: FoldingRange, offset: Position -> int)
    ensures RangeToFold(r.(startCharacter := None), offset) == RangeToFold(r.(startCharacter := Some(0)), offset)
    ensures RangeToFold(r.(endCharacter := None), offset).start == RangeToFold(r, offset).start
  {
  }

  /** run: a file without an open document gives no update; otherwise one code-block fold per
      range the server reported (none when it reported null), in order. `document` is the
      document's offset function when one is open. */
  method Run(initResult: LspInitializeResult, reply: RangeReply, document: Option<Position -> int>)
    returns (update: Result<Option<seq<FoldInfo>>>)
    ensures document.None? ==> update == Success(None)
    ensures document.Some? ==> (update.Failure? <==> initResult.capabilities.raw.None?)
    ensures document.Some? && update.Success? ==>
      var ranges := ComputeRanges(initResult, reply).value.GetOr([]);
      update.value == Some(FoldsOf(ranges, document.value))
  {
    if document.None? {
      return Success(None);
    }
    var offset := document.value;
    var computed := ComputeRanges(initResult, reply);
    if computed.Failure? {
      return Failure(computed.fault);
    }
    var infos: seq<FoldInfo> := [];
    if computed.value.Some? {
      var ranges := computed.value.value;
      var i := 0;
      while i < |ranges|
        invariant 0 <= i <= |ranges|
        invariant |infos| == i
        invariant forall k :: 0 <= k < i ==> infos[k] == RangeToFold(ranges[k], offset)
      {
        var r := ranges[i];
        var start := offset(Position(r.startLine, if r.startCharacter.Some? then r.startCharacter.value else 0));
        var end: int;
        if r.endCharacter.None? {
          end := offset(Position(r.endLine + 1, 0)) - 1;
        } else {
          end := offset(Position(r.endLine, r.endCharacter.value));
        }
        infos := infos + [FoldInfo(start, end, CodeBlock)];
        i := i + 1;
      }
      assert infos == FoldsOf(ranges, offset);
    } else {
      assert FoldsOf([], offset) == [];
    }
    update := Success(Some(infos));
  }

  /** A fold manager of one editor component; `task` is its identity as a background task. */
  class FoldManager {
    var file: Option<FileObj>
    const task: TaskId

    constructor (task: TaskId)
      ensures this.task == task && file.None?
    {
      this.task := task;
      file := None;
    }

    /** initFolds: remembers the document's file and, when there is one, registers this
        manager as a background task for it. */
    method InitFolds(documentFile: Option<FileObj>, pool: Pool)
      requires pool.Valid()
      modifies this, pool
      ensures pool.Valid()
      ensures file == documentFile
      ensures documentFile.None? ==>
        pool.tasks == old(pool.tasks) && pool.events == old(pool.events) && pool.nextId == old(pool.nextId)
      ensures documentFile.Some? ==>
        && pool.tasks == old(pool.tasks)[documentFile.value := Put(old(pool.TableFor(documentFile.value)), task, Request(old(pool.nextId), documentFile.value, task))]
        && pool.events == old(pool.events) + [Post(Request(old(pool.nextId), documentFile.value, task), Delay)]
        && pool.nextId == old(pool.nextId) + 1
    {
      file := documentFile;
      if documentFile.Some? {
        var _ := pool.AddBackgroundTask(documentFile.value, task);
      }
    }

    /** release: a registered manager deregisters (cancelling its request) and forgets the
        file, so releasing again changes nothing. */
    method Release(pool: Pool)
      requires pool.Valid()
      modifies this, pool
      ensures pool.Valid()
      ensures file.None?
      ensures old(file).None? ==>
        pool.tasks == old(pool.tasks) && pool.events == old(pool.events) && pool.nextId == old(pool.nextId)
      ensures old(file).Some? ==>
        var f := old(file).value;
        var removed := Find(old(pool.TableFor(f)), task);
        && pool.tasks == old(pool.tasks)[f := RemoveTask(old(pool.TableFor(f)), task)]
        && pool.events == old(pool.events) + (if removed.Some? then [Cancel(removed.value)] else [])
        && pool.nextId == old(pool.nextId)
    {
      if file.Some? {
        var _ := pool.RemoveBackgroundTask(file.value, task);
        file := None;
      }
    }
  }

  /** Releasing twice: the second release leaves the task table and the event log as the
      first left them. */
  method ReleaseTwice(manager: FoldManager, pool: Pool)
    returns (tasksAfterFirst: map<FileObj, seq<Entry>>, eventsAfterFirst: seq<PoolEvent>)
    requires pool.Valid()
    modifies manager, pool
    ensures manager.file.None?
    ensures pool.tasks == tasksAfterFirst && pool.events == eventsAfterFirst
  {
    manager.Release(pool);
    tasksAfterFirst, eventsAfterFirst := pool.tasks, pool.events;
    manager.Release(pool);
  }
}
