/** The protocol messages the modelled client code reads (lsp4j types), reduced to the fields it uses. */
module Protocol {
  import opened Wrappers

  datatype Position = Position(line: int, character: int)
  datatype Range = Range(start: Position, end: Position)

  datatype DiagnosticSeverity = DsError | DsWarning | DsInformation | DsHint

  /** A diagnostic. `details` stands for the remaining fields that lsp4j's equality compares
      (code, source, tags, related information, data): two diagnostics are equal only when
      those agree too. */
  datatype Diagnostic = Diagnostic(range: Range, severity: Option<DiagnosticSeverity>, message: string, details: nat)

  /** textDocument/publishDiagnostics: the document version is optional. */
  datatype PublishDiagnosticsParams = PublishDiagnosticsParams(uri: string, version: Option<int>, diagnostics: seq<Diagnostic>)

  /** window/logMessage's MessageType. */
  datatype MessageType = MtError | MtWarning | MtInfo | MtLog

  /** A folding range: the start and end characters are optional. */
  datatype FoldingRange = FoldingRange(startLine: int, startCharacter: Option<int>, endLine: int, endCharacter: Option<int>)

  /** A code action or command offered as a fix; only its title is used. */
  datatype CodeActionOrCommand = Command(title: string) | CodeAction(title: string)
}
