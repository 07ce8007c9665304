/** The `snap` command handler: page through the holders of a policy, format
    the snapshot, write it to `snapshot_<policy id>.txt`, reply with the file,
    then delete it. Any exception on the way is caught and answered with one
    fixed error reply.

    The file system is a map from file name to content, and every call the
    handler makes to the outside world (a GET of a page, a file write, a reply,
    an unlink) is appended to a trace of effects. Whether a write, a reply or an
    unlink succeeds is decided by the environment and passed in as `IoOutcomes`. */
module Handler {
  import opened Api
  import Pagination
  import opened Report

  const CommandName := "snap"
  const SnapshotMessage := "Here is your snapshot:"
  const ErrorMessage := "There was an error fetching the data. Please try again."
  const FilePrefix := "snapshot_"
  const FileSuffix := ".txt"

  /** The name of the transient report file of a policy. */
  function FileName(policyId: string): (name: string)
    ensures |name| == |FilePrefix| + |policyId| + |FileSuffix|
    ensures name[..|FilePrefix|] == FilePrefix && name[|name| - |FileSuffix|..] == FileSuffix
    ensures name[|FilePrefix|..|name| - |FileSuffix|] == policyId
  {
    FilePrefix + policyId + FileSuffix
  }

  /** Two policies share a report file only when they are the same policy. */
  lemma FileNameInjective(a: string, b: string)
    requires FileName(a) == FileName(b)
    ensures a == b
  {
  }

  /** One call to the outside world. */
  datatype Effect =
    | Get(policyId: string, count: nat, cursor: Cursor)
    | WriteFile(name: string, content: string)
    | ReplyWithFile(content: string, file: string)
    | Unlink(name: string)
    | ReplyText(content: string)

  /** Whether the write, the reply with the file and the unlink complete, or throw. */
  datatype IoOutcomes = IoOutcomes(writeOk: bool, replyOk: bool, unlinkOk: bool)

  /** What can go wrong before anything is written. */
  datatype SnapError = FetchFailed(fetch: FetchError) | FormatFailed(format: FormatError)

  /** The command event as the handler sees it. */
  datatype Interaction = Interaction(isCommand: bool, commandName: string, policyId: string)

  /** The GET requests of one pagination run: the policy, the page size, the cursor. */
  function RequestEffects(policyId: string, cursors: seq<Cursor>): (es: seq<Effect>)
    ensures |es| == |cursors|
    ensures forall k :: 0 <= k < |cursors| ==> es[k] == Get(policyId, PageSize, cursors[k])
  {
    if cursors == [] then [] else [Get(policyId, PageSize, cursors[0])] + RequestEffects(policyId, cursors[1..])
  }

  /** The snapshot text the handler produces from the remote's responses, or the
      first error that aborts it. */
  function SnapshotOf(script: seq<Response>): Result<string, SnapError>
  {
    match Pagination.Walk(script, Null).result
    case Err(e) => Err(FetchFailed(e))
    case Ok(items) =>
      match Snapshot(items)
      case Err(e) => Err(FormatFailed(e))
      case Ok(text) => Ok(text)
  }

  /** The effects after a snapshot text exists: write, reply with the file,
      unlink; the first that throws is followed by the error reply and nothing else. */
  function OutputEffects(name: string, text: string, io: IoOutcomes): (es: seq<Effect>)
    ensures 2 <= |es| <= 4 && es[0] == WriteFile(name, text)
    ensures es[1] == ReplyWithFile(SnapshotMessage, name) <==> io.writeOk
    ensures es[|es| - 1] == ReplyText(ErrorMessage) <==> !(io.writeOk && io.replyOk && io.unlinkOk)
  {
    var afterUnlink := if io.unlinkOk then [] else [ReplyText(ErrorMessage)];
    var afterReply := if io.replyOk then [Unlink(name)] + afterUnlink else [ReplyText(ErrorMessage)];
    var afterWrite := if io.writeOk then [ReplyWithFile(SnapshotMessage, name)] + afterReply else [ReplyText(ErrorMessage)];
    [WriteFile(name, text)] + afterWrite
  }

  /** The effects that follow the GET requests. */
  function AfterFetch(policyId: string, script: seq<Response>, io: IoOutcomes): seq<Effect>
  {
    match SnapshotOf(script)
    case Err(_) => [ReplyText(ErrorMessage)]
    case Ok(text) => OutputEffects(FileName(policyId), text, io)
  }

  /** Every effect of one handling of `snap`, in order. */
  function SnapEffects(policyId: string, script: seq<Response>, io: IoOutcomes): (es: seq<Effect>)
    ensures |es| >= 2 && es[0] == Get(policyId, PageSize, Null)
    ensures es[|es| - 1] == ReplyText(ErrorMessage) || es[|es| - 1] == Unlink(FileName(policyId))
  {
    RequestEffects(policyId, Pagination.Walk(script, Null).requests) + AfterFetch(policyId, script, io)
  }

  /** The file system after one handling of `snap`. */
  function SnapFiles(files: map<string, string>, policyId: string, script: seq<Response>, io: IoOutcomes): (r: map<string, string>)
    ensures forall n :: n != FileName(policyId) ==> (n in r <==> n in files)
    ensures forall n :: n != FileName(policyId) && n in r ==> r[n] == files[n]
    ensures FileName(policyId) in r ==>
      (FileName(policyId) in files && r[FileName(policyId)] == files[FileName(policyId)]) ||
      (SnapshotOf(script).Ok? && r[FileName(policyId)] == SnapshotOf(script).value)
  {
    match SnapshotOf(script)
    case Err(_) => files
    case Ok(text) =>
      if !io.writeOk then files
      else
        var name := FileName(policyId);
        if io.replyOk && io.unlinkOk then files[name := text] - {name} else files[name := text]
  }

  /** The process's view of the outside world: the files in its working directory
      and the trace of calls it has made. */
  class Host {
    var files: map<string, string>
    var trace: seq<Effect>

    constructor (files0: map<string, string>)
      ensures files == files0 && trace == []
    {
      files := files0;
      trace := [];
    }

    /** Records the GET requests a pagination run made. */
    method RecordRequests(policyId: string, cursors: seq<Cursor>)
      modifies this
      ensures trace == old(trace) + RequestEffects(policyId, cursors) && files == old(files)
    {
      trace := trace + RequestEffects(policyId, cursors);
    }

    /** `fs.writeFileSync`: creates or overwrites the file when it succeeds. */
    method WriteFileSync(name: string, content: string, ok: bool)
      modifies this
      ensures trace == old(trace) + [WriteFile(name, content)]
      ensures files == if ok then old(files)[name := content] else old(files)
    {
      trace := trace + [WriteFile(name, content)];
      if ok {
        files := files[name := content];
      }
    }

    /** `fs.unlinkSync`: removes the file when it succeeds. */
    method UnlinkSync(name: string, ok: bool)
      modifies this
      ensures trace == old(trace) + [Unlink(name)]
      ensures files == if ok then old(files) - {name} else old(files)
    {
      trace := trace + [Unlink(name)];
      if ok {
        files := files - {name};
      }
    }

    /** `interaction.reply`, with or without a file attached. */
    method Reply(e: Effect)
      requires e.ReplyWithFile? || e.ReplyText?
      modifies this
      ensures trace == old(trace) + [e] && files == old(files)
    {
      trace := trace + [e];
    }

    /** The `snap` branch of the handler. */
    method Snap(policyId: string, script: seq<Response>, io: IoOutcomes)
      modifies this
      ensures trace == old(trace) + SnapEffects(policyId, script, io)
      ensures files == SnapFiles(old(files), policyId, script, io)
    {
      var result, requests := Pagination.FetchAll(script);
      RecordRequests(policyId, requests);
      ghost var gets := RequestEffects(policyId, requests);
      ghost var tail := AfterFetch(policyId, script, io);
      assert old(trace) + SnapEffects(policyId, script, io) == trace + tail;
      if result.Err? {
        assert tail == [ReplyText(ErrorMessage)];
        Reply(ReplyText(ErrorMessage));
        return;
      }
      var snapshot := Snapshot(result.value);
      if snapshot.Err? {
        assert tail == [ReplyText(ErrorMessage)];
        Reply(ReplyText(ErrorMessage));
        return;
      }
      var name := FileName(policyId);
      assert SnapshotOf(script) == Ok(snapshot.value);
      assert tail == OutputEffects(name, snapshot.value, io);
      WriteFileSync(name, snapshot.value, io.writeOk);
      if !io.writeOk {
        Reply(ReplyText(ErrorMessage));
        return;
      }
      Reply(ReplyWithFile(SnapshotMessage, name));
      if !io.replyOk {
        Reply(ReplyText(ErrorMessage));
        return;
      }
      UnlinkSync(name, io.unlinkOk);
      if !io.unlinkOk {
        Reply(ReplyText(ErrorMessage));
      }
    }

    /** The `interactionCreate` listener: only the `snap` command is handled. */
    method Handle(interaction: Interaction, script: seq<Response>, io: IoOutcomes)
      modifies this
      ensures interaction.isCommand && interaction.commandName == CommandName ==>
        trace == old(trace) + SnapEffects(interaction.policyId, script, io) &&
        files == SnapFiles(old(files), interaction.policyId, script, io)
      ensures !(interaction.isCommand && interaction.commandName == CommandName) ==>
        trace == old(trace) && files == old(files)
    {
      if !interaction.isCommand {
        return;
      }
      if interaction.commandName == CommandName {
        Snap(interaction.policyId, script, io);
      }
    }
  }

  /** A failed request, after any number of pages that asked for more, leaves
      the files as they were, writes nothing and gets only the fixed error reply. */
  lemma FetchFailureOnlyErrorReply(files: map<string, string>, policyId: string, pages: seq<Page>,
                                   tail: seq<Response>, io: IoOutcomes)
    requires forall k :: 0 <= k < |pages| ==> Truthy(pages[k].nextCursor)
    requires tail == [] || tail[0].Err?
    ensures SnapEffects(policyId, Served(pages) + tail, io) ==
      RequestEffects(policyId, [Null] + NextCursors(pages)) + [ReplyText(ErrorMessage)]
    ensures SnapFiles(files, policyId, Served(pages) + tail, io) == files
  {
    Pagination.WalkFails(pages, tail, Null);
  }

  /** A fetched element that is not a holder object with `assets` makes the
      handler write nothing and send only the fixed error reply. */
  lemma MalformedRecordOnlyErrorReply(files: map<string, string>, policyId: string,
                                      script: seq<Response>, io: IoOutcomes, i: nat)
    requires Pagination.Walk(script, Null).result.Ok?
    requires i < |Pagination.Walk(script, Null).result.value|
    requires !Formattable(Pagination.Walk(script, Null).result.value[i])
    ensures SnapEffects(policyId, script, io) ==
      RequestEffects(policyId, Pagination.Walk(script, Null).requests) + [ReplyText(ErrorMessage)]
    ensures SnapFiles(files, policyId, script, io) == files
  {
  }

  /** When the remote serves a chained run of pages whose holders all have
      assets and no I/O call throws, the handler makes one GET per page, then
      writes the snapshot of all holders in fetch order, replies with the file
      and unlinks it, in that order, and no report file is left behind. */
  lemma SuccessfulSnapshot(files: map<string, string>, policyId: string, pages: seq<Page>,
                           rest: seq<Response>, io: IoOutcomes)
    requires Pagination.Chained(pages)
    requires forall i :: 0 <= i < |Flatten(pages)| ==> Formattable(Flatten(pages)[i])
    requires io.writeOk && io.replyOk && io.unlinkOk
    ensures var name := FileName(policyId);
      SnapEffects(policyId, Served(pages) + rest, io) ==
        RequestEffects(policyId, [Null] + NextCursors(pages[..|pages| - 1])) +
        [WriteFile(name, Snapshot(Flatten(pages)).value), ReplyWithFile(SnapshotMessage, name), Unlink(name)]
    ensures SnapFiles(files, policyId, Served(pages) + rest, io) == files - {FileName(policyId)}
  {
    var script := Served(pages) + rest;
    Pagination.WalkCompletes(pages, rest, Null);
    var text := Snapshot(Flatten(pages)).value;
    var name := FileName(policyId);
    assert SnapshotOf(script) == Ok(text);
    assert AfterFetch(policyId, script, io) ==
      [WriteFile(name, text), ReplyWithFile(SnapshotMessage, name), Unlink(name)];
    assert SnapFiles(files, policyId, script, io) == files[name := text] - {name};
  }

  /** A single page with no holders and no cursor still produces an empty
      report that is written and sent. */
  lemma EmptySnapshotIsSent(policyId: string, page: Page, rest: seq<Response>, io: IoOutcomes)
    requires page.data == Some([]) && !Truthy(page.nextCursor)
    requires io.writeOk
    ensures SnapEffects(policyId, [Ok(page)] + rest, io)[..3] ==
      [Get(policyId, PageSize, Null), WriteFile(FileName(policyId), ""), ReplyWithFile(SnapshotMessage, FileName(policyId))]
  {
    Pagination.SinglePageOneRequest(page, rest);
  }

  /** After the GET requests, an unlink comes right after a reply with that
      file that completed, and a write only when a snapshot exists, of the
      policy's file with that snapshot. */
  lemma AfterFetchOrder(policyId: string, script: seq<Response>, io: IoOutcomes)
    ensures forall t :: (0 <= t < |AfterFetch(policyId, script, io)| &&
      AfterFetch(policyId, script, io)[t].Unlink?) ==>
        t >= 1 && io.replyOk &&
        AfterFetch(policyId, script, io)[t - 1] ==
          ReplyWithFile(SnapshotMessage, AfterFetch(policyId, script, io)[t].name)
    ensures forall t :: (0 <= t < |AfterFetch(policyId, script, io)| &&
      AfterFetch(policyId, script, io)[t].WriteFile?) ==>
        SnapshotOf(script).Ok? &&
        AfterFetch(policyId, script, io)[t] == WriteFile(FileName(policyId), SnapshotOf(script).value)
  {
    var tail := AfterFetch(policyId, script, io);
    if SnapshotOf(script).Ok? {
      var name, text := FileName(policyId), SnapshotOf(script).value;
      if !io.writeOk {
        assert tail == [WriteFile(name, text), ReplyText(ErrorMessage)];
      } else if !io.replyOk {
        assert tail == [WriteFile(name, text), ReplyWithFile(SnapshotMessage, name), ReplyText(ErrorMessage)];
      } else if io.unlinkOk {
        assert tail == [WriteFile(name, text), ReplyWithFile(SnapshotMessage, name), Unlink(name)];
      } else {
        assert tail == [WriteFile(name, text), ReplyWithFile(SnapshotMessage, name), Unlink(name),
                        ReplyText(ErrorMessage)];
      }
    } else {
      assert tail == [ReplyText(ErrorMessage)];
    }
  }

  /** An unlink is always the call right after a reply with that file that
      completed; so a reply that throws leaves the file in place. */
  lemma UnlinkFollowsCompletedReply(policyId: string, script: seq<Response>, io: IoOutcomes)
    ensures forall k :: (0 <= k < |SnapEffects(policyId, script, io)| &&
      SnapEffects(policyId, script, io)[k].Unlink?) ==>
        k >= 1 && io.replyOk &&
        SnapEffects(policyId, script, io)[k - 1] ==
          ReplyWithFile(SnapshotMessage, SnapEffects(policyId, script, io)[k].name)
  {
    var gets := RequestEffects(policyId, Pagination.Walk(script, Null).requests);
    var tail := AfterFetch(policyId, script, io);
    var es := SnapEffects(policyId, script, io);
    AfterFetchOrder(policyId, script, io);
    forall k | 0 <= k < |es| && es[k].Unlink?
      ensures k >= 1 && io.replyOk && es[k - 1] == ReplyWithFile(SnapshotMessage, es[k].name)
    {
      assert k >= |gets|;
      assert es[k] == tail[k - |gets|];
      assert k - |gets| >= 1;
      assert es[k - 1] == tail[k - |gets| - 1];
    }
  }

  /** A reply with the file that throws is followed only by the error reply, and
      the written report stays on disk. */
  lemma ReplyFailureKeepsFile(files: map<string, string>, policyId: string, script: seq<Response>, io: IoOutcomes)
    requires SnapshotOf(script).Ok?
    requires io.writeOk && !io.replyOk
    ensures var es := SnapEffects(policyId, script, io);
      |es| >= 2 && es[|es| - 1] == ReplyText(ErrorMessage) &&
      es[|es| - 2] == ReplyWithFile(SnapshotMessage, FileName(policyId)) &&
      forall k :: 0 <= k < |es| ==> !es[k].Unlink?
    ensures SnapFiles(files, policyId, script, io)[FileName(policyId)] == SnapshotOf(script).value
  {
    var gets := RequestEffects(policyId, Pagination.Walk(script, Null).requests);
    var name := FileName(policyId);
    var tail := [WriteFile(name, SnapshotOf(script).value), ReplyWithFile(SnapshotMessage, name), ReplyText(ErrorMessage)];
    assert AfterFetch(policyId, script, io) == tail;
    var es := SnapEffects(policyId, script, io);
    assert es == gets + tail;
    forall k | 0 <= k < |es| ensures !es[k].Unlink? {
      if k < |gets| { assert es[k] == gets[k]; } else { assert es[k] == tail[k - |gets|]; }
    }
  }

  /** A file is written only when every request succeeded and every holder was
      formatted; it is the policy's report file and holds the full snapshot. */
  lemma WriteOnlyCompleteSnapshot(policyId: string, script: seq<Response>, io: IoOutcomes)
    ensures forall k :: (0 <= k < |SnapEffects(policyId, script, io)| &&
      SnapEffects(policyId, script, io)[k].WriteFile?) ==>
        SnapshotOf(script).Ok? &&
        SnapEffects(policyId, script, io)[k] == WriteFile(FileName(policyId), SnapshotOf(script).value)
  {
    var gets := RequestEffects(policyId, Pagination.Walk(script, Null).requests);
    var tail := AfterFetch(policyId, script, io);
    var es := SnapEffects(policyId, script, io);
    AfterFetchOrder(policyId, script, io);
    forall k | 0 <= k < |es| && es[k].WriteFile?
      ensures SnapshotOf(script).Ok? && es[k] == WriteFile(FileName(policyId), SnapshotOf(script).value)
    {
      assert k >= |gets|;
      assert es[k] == tail[k - |gets|];
    }
  }
}
