/** The capability model: LSPServerCapabilities and LSPInitializeResult. A server announces many
    capabilities as "boolean or options object"; the predicates here turn that encoding into yes/no
    answers. The wrapped capabilities object may itself be null, and then every query faults. */
module Capabilities {
  import opened Wrappers

  /** An options object the server sent for one capability; its content is opaque here. */
  datatype Options = Options(tag: nat)

  /** The protocol's "boolean or options object" value (lsp4j Either<Boolean, O>); the
      payload on either side may be null. */
  datatype BoolOrOptions = Left(flag: Option<bool>) | Right(options: Option<Options>)

  /** TextDocumentSyncKind or TextDocumentSyncOptions. */
  datatype SyncKind = SyncNone | SyncFull | SyncIncremental
  datatype SyncSetting = SyncByKind(kind: Option<SyncKind>) | SyncByOptions(options: Option<Options>)

  /** The server's raw ServerCapabilities: every field may be absent. */
  datatype ServerCapabilities = ServerCapabilities(
    referencesProvider: Option<BoolOrOptions>,
    renameProvider: Option<BoolOrOptions>,
    completionProvider: Option<Options>,
    documentSymbolProvider: Option<BoolOrOptions>,
    documentFormattingProvider: Option<BoolOrOptions>,
    documentRangeFormattingProvider: Option<BoolOrOptions>,
    documentHighlightProvider: Option<BoolOrOptions>,
    textDocumentSync: Option<SyncSetting>,
    codeActionProvider: Option<BoolOrOptions>,
    foldingRangeProvider: Option<BoolOrOptions>,
    hoverProvider: Option<BoolOrOptions>,
    signatureHelpProvider: Option<Options>,
    semanticTokensProvider: Option<Options>)

  /** `new ServerCapabilities()`: nothing announced. */
  const EmptyCapabilities := ServerCapabilities(None, None, None, None, None, None, None, None, None, None, None, None, None)

  datatype ServerInfo = ServerInfo(name: string, version: Option<string>)

  /** lsp4j InitializeResult. */
  datatype InitializeResult = InitializeResult(capabilities: Option<ServerCapabilities>, serverInfo: Option<ServerInfo>)

  /** LSPServerCapabilities: a wrapper fixed at construction around a possibly-null raw object. */
  datatype LspServerCapabilities = LspServerCapabilities(raw: Option<ServerCapabilities>)

  /** translateAvailibility: a capability is available when its value is a Left holding true,
      or any Right (whatever the Right holds). */
  predicate TranslateAvailability(either: Option<BoolOrOptions>) {
    either.Some? && ((either.value.Left? && either.value.flag == Some(true)) || either.value.Right?)
  }

  /** Runs a query against the raw capabilities; a null raw object is dereferenced and faults. */
  function Query(c: LspServerCapabilities, field: ServerCapabilities -> Option<BoolOrOptions>): (r: Result<bool>)
    ensures r.Failure? <==> c.raw.None?
    ensures r.Failure? ==> r.fault == NullDereference
  {
    if c.raw.None? then Failure(NullDereference) else Success(TranslateAvailability(field(c.raw.value)))
  }

  /** hasReferenceSupport: a Left answers with its boolean (a null Boolean is unboxed and faults),
      a Right is available when its options are present. */
  function HasReferenceSupport(c: LspServerCapabilities): (r: Result<bool>)
    ensures c.raw.None? ==> r == Failure(NullDereference)
  {
    if c.raw.None? then Failure(NullDereference)
    else match c.raw.value.referencesProvider
      case None => Success(false)
      case Some(Left(flag)) => if flag.None? then Failure(NullDereference) else Success(flag.value)
      case Some(Right(options)) => Success(options.Some?)
  }

  function HasRenameSupport(c: LspServerCapabilities): (r: Result<bool>)
    ensures r.Failure? <==> c.raw.None?
    ensures r.Success? ==> r.value == TranslateAvailability(c.raw.value.renameProvider)
  {
    Query(c, (s: ServerCapabilities) => s.renameProvider)
  }

  function HasDocumentSymbolSupport(c: LspServerCapabilities): (r: Result<bool>)
    ensures r.Failure? <==> c.raw.None?
    ensures r.Success? ==> r.value == TranslateAvailability(c.raw.value.documentSymbolProvider)
  {
    Query(c, (s: ServerCapabilities) => s.documentSymbolProvider)
  }

  function HasDocumentFormattingSupport(c: LspServerCapabilities): (r: Result<bool>)
    ensures r.Failure? <==> c.raw.None?
    ensures r.Success? ==> r.value == TranslateAvailability(c.raw.value.documentFormattingProvider)
  {
    Query(c, (s: ServerCapabilities) => s.documentFormattingProvider)
  }

  function HasDocumentRangeFormattingSupport(c: LspServerCapabilities): (r: Result<bool>)
    ensures r.Failure? <==> c.raw.None?
    ensures r.Success? ==> r.value == TranslateAvailability(c.raw.value.documentRangeFormattingProvider)
  {
    Query(c, (s: ServerCapabilities) => s.documentRangeFormattingProvider)
  }

  function HasDocumentHighlightSupport(c: LspServerCapabilities): (r: Result<bool>)
    ensures r.Failure? <==> c.raw.None?
    ensures r.Success? ==> r.value == TranslateAvailability(c.raw.value.documentHighlightProvider)
  {
    Query(c, (s: ServerCapabilities) => s.documentHighlightProvider)
  }

  function HasCodeActionSupport(c: LspServerCapabilities): (r: Result<bool>)
    ensures r.Failure? <==> c.raw.None?
    ensures r.Success? ==> r.value == TranslateAvailability(c.raw.value.codeActionProvider)
  {
    Query(c, (s: ServerCapabilities) => s.codeActionProvider)
  }

  function HasFoldingRangeSupport(c: LspServerCapabilities): (r: Result<bool>)
    ensures r.Failure? <==> c.raw.None?
    ensures r.Success? ==> r.value == TranslateAvailability(c.raw.value.foldingRangeProvider)
  {
    Query(c, (s: ServerCapabilities) => s.foldingRangeProvider)
  }

  function HasHoverSupport(c: LspServerCapabilities): (r: Result<bool>)
    ensures r.Failure? <==> c.raw.None?
    ensures r.Success? ==> r.value == TranslateAvailability(c.raw.value.hoverProvider)
  {
    Query(c, (s: ServerCapabilities) => s.hoverProvider)
  }

  /** getHoverProviderOptions: the hover options when the hover provider is a Right holding
      options; empty otherwise. */
  function GetHoverProviderOptions(c: LspServerCapabilities): (r: Result<Option<Options>>)
    ensures c.raw.None? <==> r.Failure?
    ensures r.Success? && r.value.Some? ==> HasHoverSupport(c) == Success(true)
    ensures r.Success? && r.value.Some? <==>
              c.raw.Some? && exists o :: c.raw.value.hoverProvider == Some(Right(Some(o))) && r.value == Some(o)
  {
    if c.raw.None? then Failure(NullDereference)
    else match c.raw.value.hoverProvider
      case Some(Right(options)) => Success(options)
      case _ => Success(None)
  }

  /** The pass-through getters hand back the raw field unchanged. */
  function GetCompletionProvider(c: LspServerCapabilities): (r: Result<Option<Options>>)
    ensures r.Success? <==> c.raw.Some?
    ensures r.Success? ==> r.value == c.raw.value.completionProvider
  {
    if c.raw.None? then Failure(NullDereference) else Success(c.raw.value.completionProvider)
  }

  function GetTextDocumentSync(c: LspServerCapabilities): (r: Result<Option<SyncSetting>>)
    ensures r.Success? <==> c.raw.Some?
    ensures r.Success? ==> r.value == c.raw.value.textDocumentSync
  {
    if c.raw.None? then Failure(NullDereference) else Success(c.raw.value.textDocumentSync)
  }

  function GetCodeActionProvider(c: LspServerCapabilities): (r: Result<Option<BoolOrOptions>>)
    ensures r.Success? <==> c.raw.Some?
    ensures r.Success? ==> r.value == c.raw.value.codeActionProvider
  {
    if c.raw.None? then Failure(NullDereference) else Success(c.raw.value.codeActionProvider)
  }

  function GetSignatureHelpProviderOptions(c: LspServerCapabilities): (r: Result<Option<Options>>)
    ensures r.Success? <==> c.raw.Some?
    ensures r.Success? ==> r.value == c.raw.value.signatureHelpProvider
  {
    if c.raw.None? then Failure(NullDereference) else Success(c.raw.value.signatureHelpProvider)
  }

  function GetSemanticTokensProvider(c: LspServerCapabilities): (r: Result<Option<Options>>)
    ensures r.Success? <==> c.raw.Some?
    ensures r.Success? ==> r.value == c.raw.value.semanticTokensProvider
  {
    if c.raw.None? then Failure(NullDereference) else Success(c.raw.value.semanticTokensProvider)
  }

  /** The availability rule as the protocol states it: announced as true, or an options object
      is present. */
  predicate Announced(either: Option<BoolOrOptions>) {
    either == Some(Left(Some(true))) || (either.Some? && either.value.Right? && either.value.options.Some?)
  }

  /** translateAvailibility follows the protocol's rule, except that a Right holding null also
      counts as available. */
  lemma TranslateAvailabilityVersusAnnounced(either: Option<BoolOrOptions>)
    ensures TranslateAvailability(either) <==> Announced(either) || either == Some(Right(None))
  {
  }

  /** hasReferenceSupport follows the protocol's rule exactly, except that a Left holding null
      faults; so it differs from translateAvailibility on both null payloads. */
  lemma ReferenceSupportVersusAnnounced(c: LspServerCapabilities)
    requires c.raw.Some?
    ensures c.raw.value.referencesProvider == Some(Left(None)) ==> HasReferenceSupport(c) == Failure(NullDereference)
    ensures c.raw.value.referencesProvider != Some(Left(None)) ==>
              HasReferenceSupport(c) == Success(Announced(c.raw.value.referencesProvider))
    ensures c.raw.value.referencesProvider == Some(Right(None)) ==>
              HasReferenceSupport(c) == Success(false) && TranslateAvailability(c.raw.value.referencesProvider)
  {
    match c.raw.value.referencesProvider
    case None =>
    case Some(Left(flag)) =>
      if flag.Some? {
        assert Announced(c.raw.value.referencesProvider) == flag.value;
      }
    case Some(Right(options)) =>
  }

  /** Each availability predicate answers true for "boolean true", true for a present options
      object and false for an absent field (rename shown; the others share Query). */
  lemma EncodingsOfAvailability(sc: ServerCapabilities, o: Options)
    ensures HasRenameSupport(LspServerCapabilities(Some(sc.(renameProvider := Some(Left(Some(true))))))) == Success(true)
    ensures HasRenameSupport(LspServerCapabilities(Some(sc.(renameProvider := Some(Right(Some(o))))))) == Success(true)
    ensures HasRenameSupport(LspServerCapabilities(Some(sc.(renameProvider := None)))) == Success(false)
    ensures HasReferenceSupport(LspServerCapabilities(Some(sc.(referencesProvider := Some(Left(Some(true))))))) == Success(true)
    ensures HasReferenceSupport(LspServerCapabilities(Some(sc.(referencesProvider := Some(Right(Some(o))))))) == Success(true)
    ensures HasReferenceSupport(LspServerCapabilities(Some(sc.(referencesProvider := None)))) == Success(false)
  {
  }

  /** Every availability predicate answers false, without a fault. */
  predicate SupportNothing(c: LspServerCapabilities) {
    && HasReferenceSupport(c) == Success(false)
    && HasRenameSupport(c) == Success(false)
    && HasDocumentSymbolSupport(c) == Success(false)
    && HasDocumentFormattingSupport(c) == Success(false)
    && HasDocumentRangeFormattingSupport(c) == Success(false)
    && HasDocumentHighlightSupport(c) == Success(false)
    && HasCodeActionSupport(c) == Success(false)
    && HasFoldingRangeSupport(c) == Success(false)
    && HasHoverSupport(c) == Success(false)
  }

  /** The empty ServerCapabilities that the handshake synthesises for a dead server supports nothing. */
  lemma EmptyCapabilitiesSupportNothing()
    ensures SupportNothing(LspServerCapabilities(Some(EmptyCapabilities)))
    ensures GetHoverProviderOptions(LspServerCapabilities(Some(EmptyCapabilities))) == Success(None)
  {
  }

  /** A wrapper around null does not answer "unsupported": every query faults. */
  lemma NullCapabilitiesFault(c: LspServerCapabilities)
    requires c.raw.None?
    ensures HasReferenceSupport(c).Failure? && HasRenameSupport(c).Failure? && HasDocumentSymbolSupport(c).Failure?
    ensures HasDocumentFormattingSupport(c).Failure? && HasDocumentRangeFormattingSupport(c).Failure?
    ensures HasDocumentHighlightSupport(c).Failure? && HasCodeActionSupport(c).Failure?
    ensures HasFoldingRangeSupport(c).Failure? && HasHoverSupport(c).Failure? && GetHoverProviderOptions(c).Failure?
  {
  }

  /** LSPInitializeResult: the original result (possibly null) and the capabilities wrapper
      chosen once by the constructor. */
  datatype LspInitializeResult = LspInitializeResult(org: Option<InitializeResult>, capabilities: LspServerCapabilities)

  /** The constructor: a non-null result's capabilities are wrapped; a null result wraps null. */
  function NewLspInitializeResult(org: Option<InitializeResult>): (r: LspInitializeResult)
    ensures r.org == org
    ensures org.Some? ==> r.capabilities.raw == org.value.capabilities
    ensures org.None? ==> r.capabilities.raw.None?
  {
    LspInitializeResult(org, LspServerCapabilities(if org.Some? then org.value.capabilities else None))
  }

  /** getServerInfo delegates to the original result, which faults when that is null. */
  function GetServerInfo(r: LspInitializeResult): (info: Result<Option<ServerInfo>>)
    ensures info.Failure? <==> r.org.None?
    ensures info.Success? ==> info.value == r.org.value.serverInfo
  {
    if r.org.None? then Failure(NullDereference) else Success(r.org.value.serverInfo)
  }
}
