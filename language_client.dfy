/** LanguageClientImpl: the client side of the protocol, answering the server's notifications
    and requests for one session. */
module LanguageClient {
  import opened Wrappers
  import opened Protocol
  import opened Capabilities
  import opened EditorHints
  import opened Sessions
  import Log

  /** Where a diagnostics URI leads: a malformed URI or URL, a relative URI
      (which has no URL), no file object, a file without an open document, or an open document
      with its position-to-offset mapping. */
  datatype UriResolution = MalformedUri | RelativeUri | NoFileObject | NoDocument | OpenDocument(offset: Position -> int)

  /** A workspace/configuration item and a workspace folder; the client never reads their
      contents. */
  datatype ConfigurationItem = ConfigurationItem(scopeUri: Option<string>, section: Option<string>)
  datatype WorkspaceFolder = WorkspaceFolder(uri: string, name: string)

  /** logMessage's routing: Error to the error level, Warning to the warning level, anything
      else to the info level (HINT). */
  function RouteLevel(t: MessageType): (level: Severity)
    ensures level == ERROR <==> t == MtError
    ensures level == WARNING <==> t == MtWarning
    ensures level == HINT <==> t == MtInfo || t == MtLog
  {
    match t
    case MtError => ERROR
    case MtWarning => WARNING
    case _ => HINT
  }

  /** workspace/configuration: one null answer per requested item, in order. */
  method Configuration(items: seq<ConfigurationItem>) returns (outcome: seq<Option<string>>)
    ensures |outcome| == |items|
    ensures forall i :: 0 <= i < |outcome| ==> outcome[i].None?
  {
    outcome := [];
    var k := 0;
    while k < |items|
      invariant 0 <= k <= |items|
      invariant |outcome| == k
      invariant forall i :: 0 <= i < |outcome| ==> outcome[i].None?
    {
      outcome := outcome + [None];
      k := k + 1;
    }
  }

  /** workspace/workspaceFolders: always the empty list. */
  function WorkspaceFolders(): (folders: seq<WorkspaceFolder>)
    ensures |folders| == 0
  {
    []
  }

  /** workspace/applyEdit: the edit is handed to the editor and the reply always says applied. */
  function ApplyEdit(edit: string): (applied: bool)
    ensures applied
  {
    true
  }

  class LanguageClientImpl {
    var bindings: Option<Session>
    var allowCodeActions: bool

    constructor ()
      ensures bindings.None? && !allowCodeActions
    {
      bindings := None;
      allowCodeActions := false;
    }

    /** setBindings: the session is stored first; then code actions are allowed exactly when
        the session's server announces them. A null session, or a session whose server sent
        no capabilities, fails with a null dereference and leaves the flag as it was. */
    method SetBindings(b: Option<Session>) returns (r: Result<bool>)
      modifies this
      ensures bindings == b
      ensures b.None? ==> r == Failure(NullDereference)
      ensures b.Some? ==> r == HasCodeActionSupport(b.value.initResult.capabilities)
      ensures r.Success? ==> allowCodeActions == r.value
      ensures r.Failure? ==> allowCodeActions == old(allowCodeActions)
    {
      bindings := b;
      if b.None? {
        return Failure(NullDereference);
      }
      r := HasCodeActionSupport(b.value.initResult.capabilities);
      if r.Success? {
        allowCodeActions := r.value;
      }
    }

    /** The fix list attached to each published diagnostic. */
    function FixesFor(uri: string, d: Diagnostic): (f: FixListChoice)
      reads this
      ensures f.LazyFixes? <==> allowCodeActions
      ensures f.LazyFixes? ==> f.uri == uri && f.diagnostic == d
    {
      if allowCodeActions then LazyFixes(uri, d) else NoFixes
    }

    /** publishDiagnostics: the error descriptions set on the document, one per diagnostic in
        order. A malformed URI or a file without an open document is ignored (None); a relative
        URI fails in its conversion to a URL, an exception the handler does not catch; a URI
        with no file object fails on the null file. */
    function PublishDiagnostics(pdp: PublishDiagnosticsParams, target: UriResolution): (r: Result<Option<seq<ErrorDescription>>>)
      reads this
      ensures r.Failure? <==> target.NoFileObject? || target.RelativeUri?
      ensures r.Failure? ==> r.fault == (if target.RelativeUri? then IllegalArgument else NullDereference)
      ensures r.Success? ==> (r.value.Some? <==> target.OpenDocument?)
      ensures r.Success? && r.value.Some? ==>
        |r.value.value| == |pdp.diagnostics| &&
        forall i :: 0 <= i < |pdp.diagnostics| ==>
          r.value.value[i] == Describe(pdp.diagnostics[i], FixesFor(pdp.uri, pdp.diagnostics[i]), target.offset)
    {
      match target
      case MalformedUri => Success(None)
      case RelativeUri => Failure(IllegalArgument)
      case NoFileObject => Failure(NullDereference)
      case NoDocument => Success(None)
      case OpenDocument(offset) =>
        var ds := pdp.diagnostics;
        var allow := allowCodeActions;
        Success(Some(seq(|ds|, i requires 0 <= i < |ds| =>
          Describe(ds[i], if allow then LazyFixes(pdp.uri, ds[i]) else NoFixes, offset))))
    }

    /** Every published error carries the diagnostic's mapped severity, message and offsets,
        and a lazy fix list exactly when code actions are allowed. */
    lemma PublishedErrorsFollowDiagnostics(pdp: PublishDiagnosticsParams, offset: Position -> int, i: int)
      requires 0 <= i < |pdp.diagnostics|
      ensures var r := PublishDiagnostics(pdp, OpenDocument(offset));
        r.Success? && r.value.Some? &&
        r.value.value[i].severity == SeverityOf(pdp.diagnostics[i].severity) &&
        r.value.value[i].message == pdp.diagnostics[i].message &&
        r.value.value[i].start == offset(pdp.diagnostics[i].range.start) &&
        r.value.value[i].end == offset(pdp.diagnostics[i].range.end) &&
        (r.value.value[i].fixes.LazyFixes? <==> allowCodeActions)
    {
    }
  }

  /** logMessage: the message goes to the log at the routed level, stamped `now`. A message
      without a type fails before anything is logged. */
  method LogMessage(t: Option<MessageType>, message: Option<string>, log: Log.LogStorage, now: int)
    returns (r: Result<Severity>)
    requires log.Valid()
    modifies log
    ensures log.Valid()
    ensures t.None? ==> r == Failure(NullDereference) && log.lines == old(log.lines)
    ensures t.Some? ==> r == Success(RouteLevel(t.value))
    ensures t.Some? ==> log.lines == Log.Added(old(log.lines), old(log.enabled), Log.LogLine(RouteLevel(t.value), now, message))
    ensures t.None? ==> log.console == old(log.console)
    ensures t.Some? ==>
              log.console == if |log.lines| == |old(log.lines)| || !log.consoleLogging then old(log.console)
                             else old(log.console) + [Log.ToString(Log.LogLine(RouteLevel(t.value), now, message))]
    ensures log.enabled == old(log.enabled) && log.consoleLogging == old(log.consoleLogging)
  {
    if t.None? {
      return Failure(NullDereference);
    }
    match t.value {
      case MtError => log.Error(message, now);
      case MtWarning => log.Warning(message, now);
      case _ => log.Info(message, now);
    }
    r := Success(RouteLevel(t.value));
  }
}
