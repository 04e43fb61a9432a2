/** The editor side of diagnostics: NetBeans hint severities, error descriptions, and the lazily
    computed fix list attached to each diagnostic (DiagnosticFixList, present in both
    HintsAndErrorsProvider and LanguageClientImpl). */
module EditorHints {
  import opened Wrappers
  import opened Protocol

  /** org.netbeans.spi.editor.hints.Severity (the values this code uses). */
  datatype Severity = ERROR | WARNING | HINT

  /** The severity map: Error to ERROR, Warning to WARNING, Hint and Information to HINT.
      A diagnostic without severity has no entry, and the lookup gives null. */
  function SeverityOf(ds: Option<DiagnosticSeverity>): (r: Option<Severity>)
    ensures r.None? <==> ds.None?
    ensures r == Some(ERROR) <==> ds == Some(DsError)
    ensures r == Some(WARNING) <==> ds == Some(DsWarning)
    ensures r == Some(HINT) <==> ds == Some(DsHint) || ds == Some(DsInformation)
  {
    match ds
    case None => None
    case Some(DsError) => Some(ERROR)
    case Some(DsWarning) => Some(WARNING)
    case Some(DsInformation) => Some(HINT)
    case Some(DsHint) => Some(HINT)
  }

  /** The fix list attached to an error description: a lazily computed list for the diagnostic,
      or the empty list. */
  datatype FixListChoice = LazyFixes(uri: string, diagnostic: Diagnostic) | NoFixes

  /** An ErrorDescription: severity, message, fixes and the document offsets of the range. */
  datatype ErrorDescription = ErrorDescription(severity: Option<Severity>, message: string, fixes: FixListChoice, start: int, end: int)

  /** ErrorDescriptionFactory.createErrorDescription for a diagnostic; `offset` is Utils.getOffset
      on the document. */
  function Describe(d: Diagnostic, fixes: FixListChoice, offset: Position -> int): (e: ErrorDescription)
    ensures e.severity == SeverityOf(d.severity) && e.message == d.message && e.fixes == fixes
    ensures e.start == offset(d.range.start) && e.end == offset(d.range.end)
  {
    ErrorDescription(SeverityOf(d.severity), d.message, fixes, offset(d.range.start), offset(d.range.end))
  }

  /** A fix offered for a diagnostic: its text is the command's or the code action's title. */
  function FixText(cmd: CodeActionOrCommand): string {
    match cmd
    case Command(title) => title
    case CodeAction(title) => title
  }

  /** DiagnosticFixList: fixes are computed once in the background on first demand. `posted`
      counts the background computations started. */
  class DiagnosticFixList {
    const fileUri: string
    const diagnostic: Diagnostic
    var fixes: Option<seq<CodeActionOrCommand>>
    var computing: bool
    var computed: bool
    var posted: nat

    /** At most one computation is ever started: one exactly when computing or computed. */
    ghost predicate Valid()
      reads this
    {
      && posted == (if computing || computed then 1 else 0)
      && !(computing && computed)
      && (computed <==> fixes.Some?)
    }

    constructor (fileUri: string, diagnostic: Diagnostic)
      ensures Valid()
      ensures this.fileUri == fileUri && this.diagnostic == diagnostic
      ensures fixes.None? && !computing && !computed && posted == 0
    {
      this.fileUri := fileUri;
      this.diagnostic := diagnostic;
      fixes := None;
      computing, computed := false, false;
      posted := 0;
    }

    /** getFixes: starts the computation only when neither computing nor computed, and returns
        the fixes known so far (null until the computation has completed). */
    method GetFixes() returns (r: Option<seq<CodeActionOrCommand>>)
      requires Valid()
      modifies this
      ensures Valid()
      ensures r == fixes && fixes == old(fixes) && computed == old(computed)
      ensures r.Some? <==> computed
      ensures !old(computing) && !old(computed) ==> computing && posted == 1
      ensures old(computing) || old(computed) ==> computing == old(computing) && posted == old(posted)
      ensures posted <= 1
    {
      if !computing && !computed {
        computing := true;
        posted := posted + 1;
      }
      r := fixes;
    }

    /** The background computation completed with the server's code actions. When the request
        fails instead, nothing is changed: `computing` stays true and no computation is ever
        started again. */
    method ComputationSucceeded(commands: seq<CodeActionOrCommand>)
      requires Valid() && computing
      modifies this
      ensures Valid()
      ensures fixes == Some(commands) && computed && !computing && posted == old(posted)
    {
      fixes := Some(commands);
      computed := true;
      computing := false;
    }

    function IsComputed(): (r: bool)
      reads this
      requires Valid()
      ensures r <==> fixes.Some?
    {
      computed
    }
  }
}
