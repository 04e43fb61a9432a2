/** The session registry (LSPBindingFactory, and the older copy in LSPBindings): which running
    language server serves a file. Sessions are found through two tables: workspace roots with
    servers attached by socket, keyed by file extension, and folders keyed by MIME type, whose
    entries are weak references. A keep-alive map holds the sessions used in the last ten
    minutes strongly; a reaper drops the older ones. */
module Registry {
  import opened Wrappers
  import opened Files
  import opened Capabilities
  import opened Handshake
  import opened Sessions
  import LanguageClient

  /** How long a session stays strongly held after its last lookup: ten minutes in ms. */
  const KeepAliveMillis: int := 10 * 60 * 1000

  /** What one LanguageServerProvider does when asked to start a server: nothing (a null
      description), hand back a description already bound to a session, or launch a server
      (with or without a process) whose initialize handshake observes `polls`. */
  datatype ProviderReply =
    | Decline
    | AlreadyBound(session: Session)
    | Launch(hasProcess: bool, polls: seq<PollEvent>)

  /** How buildBindings ends for a list of providers, decided by the first provider that does
      not decline or fail its handshake. */
  datatype Plan =
    | NoServer                                              // every provider declined or failed
    | Reuse(index: nat, session: Session)                   // a description already had a session
    | Started(index: nat, result: Option<InitializeResult>, hasProcess: bool)  // a new session
    | Crash(index: nat)   // the new session has no capabilities: setBindings dereferences null
    | Hang(index: nat)    // the handshake is still waiting when the events run out

  function BuildPlan(providers: seq<ProviderReply>, k: nat): Plan
    decreases |providers| - k
  {
    if k >= |providers| then NoServer
    else match providers[k]
      case Decline => BuildPlan(providers, k + 1)
      case AlreadyBound(s) => Reuse(k, s)
      case Launch(hasProcess, polls) =>
        match Handshake.Handshake(hasProcess, polls)
        case Aborted => BuildPlan(providers, k + 1)
        case StillWaiting => Hang(k)
        case Initialized(result, _) =>
          if NewLspInitializeResult(result).capabilities.raw.None? then Crash(k)
          else Started(k, result, hasProcess)
  }

  /** A provider that buildBindings passes over: it declines, or its handshake fails. */
  predicate PassedOver(p: ProviderReply) {
    p.Decline? || (p.Launch? && Handshake.Handshake(p.hasProcess, p.polls).Aborted?)
  }

  function PlanIndex(plan: Plan): nat
    requires !plan.NoServer?
  {
    match plan
    case Reuse(i, _) => i
    case Started(i, _, _) => i
    case Crash(i) => i
    case Hang(i) => i
  }

  /** The first provider that is not passed over decides; with none, there is no server. */
  lemma {:induction false} FirstProviderDecides(providers: seq<ProviderReply>, k: nat)
    requires k <= |providers|
    ensures BuildPlan(providers, k).NoServer? <==> forall j :: k <= j < |providers| ==> PassedOver(providers[j])
    ensures !BuildPlan(providers, k).NoServer? ==>
      var i := PlanIndex(BuildPlan(providers, k));
      k <= i < |providers| && !PassedOver(providers[i]) &&
      (forall j :: k <= j < i ==> PassedOver(providers[j])) &&
      BuildPlan(providers, k) == BuildPlan(providers, i)
    decreases |providers| - k
  {
    if k < |providers| {
      FirstProviderDecides(providers, k + 1);
    }
  }

  /** A reused session comes from a description that was already bound to it. */
  lemma ReuseComesFromBoundDescription(providers: seq<ProviderReply>)
    requires BuildPlan(providers, 0).Reuse?
    ensures var p := BuildPlan(providers, 0);
      p.index < |providers| && providers[p.index] == AlreadyBound(p.session)
  {
    FirstProviderDecides(providers, 0);
  }

  /** How a lookup ends. */
  datatype Outcome =
    | Found(session: Session)
    | NotFound
    | Crashed(fault: Fault)   // an exception escaped the lookup
    | Hung                    // the lookup is still blocked in a handshake

  /** Every session a provider hands back is strongly held by its description. */
  ghost predicate BoundSessionsLive(providers: seq<ProviderReply>, collected: set<Session>) {
    forall i :: 0 <= i < |providers| && providers[i].AlreadyBound? ==> providers[i].session !in collected
  }

  /** The folder a (project, file) lookup is keyed by: the project directory, else the file's
      parent; the file-system root has no parent. */
  function KeyDir(project: Option<FileObj>, file: FileObj): (dir: Option<FileObj>)
    ensures dir.None? <==> project.None? && file.path == []
    ensures project.Some? ==> dir == project
    ensures project.None? && dir.Some? ==> IsParentOf(dir.value, file) && |dir.value.path| + 1 == |file.path|
    ensures project.None? && file.path != [] ==> dir == Some(Parent(file))
  {
    if project.Some? then project
    else if file.path == [] then None
    else Some(Parent(file))
  }

  /** The MIME table of a folder URI, empty when absent (computeIfAbsent). */
  function MimesAt(mt: map<Uri, map<string, Session>>, uri: Uri): map<string, Session> {
    if uri in mt then mt[uri] else map[]
  }

  /** The session a weak MIME-table entry still refers to. */
  function Cached(mt: map<Uri, map<string, Session>>, collected: set<Session>, uri: Uri, mime: string): (r: Option<Session>)
    ensures r.Some? <==> mime in MimesAt(mt, uri) && MimesAt(mt, uri)[mime] !in collected
    ensures r.Some? ==> r.value == MimesAt(mt, uri)[mime]
  {
    var m := MimesAt(mt, uri);
    if mime in m && m[mime] !in collected then Some(m[mime]) else None
  }

  /** A session still referenced from the MIME table. */
  ghost predicate ReferencedByMime(mt: map<Uri, map<string, Session>>, collected: set<Session>, s: Session) {
    s !in collected && exists u, m :: u in mt && m in mt[u] && mt[u][m] == s
  }

  /** A session bound in the extension table. */
  ghost predicate HeldByExtension(et: map<FileObj, map<string, Session>>, s: Session) {
    exists f, e :: f in et && e in et[f] && et[f][e] == s
  }

  /** getAllBindings: the sessions still referenced from the MIME table and the sessions of the
      extension table, as a set of identities. */
  function AllBindings(mt: map<Uri, map<string, Session>>, et: map<FileObj, map<string, Session>>, collected: set<Session>): set<Session> {
    (set u, m | u in mt && m in mt[u] && mt[u][m] !in collected :: mt[u][m]) + ExtensionSessions(et)
  }

  /** The sessions the extension table binds. */
  function ExtensionSessions(et: map<FileObj, map<string, Session>>): set<Session> {
    set f, e | f in et && e in et[f] :: et[f][e]
  }

  /** A session is in getAllBindings exactly when the MIME table still refers to it or the
      extension table binds it; a session bound under several keys appears once. */
  lemma AllBindingsMembers(mt: map<Uri, map<string, Session>>, et: map<FileObj, map<string, Session>>, collected: set<Session>, s: Session)
    ensures s in AllBindings(mt, et, collected) <==> ReferencedByMime(mt, collected, s) || HeldByExtension(et, s)
  {
    if ReferencedByMime(mt, collected, s) {
      var u, m :| u in mt && m in mt[u] && mt[u][m] == s;
    }
    if HeldByExtension(et, s) {
      var f, e :| f in et && e in et[f] && et[f][e] == s;
    }
  }

  /** The first root, in iteration order, that contains the file. */
  function FirstContainingRoot(roots: seq<FileObj>, file: FileObj): (r: Option<nat>)
    ensures r.Some? ==> r.value < |roots| && IsParentOf(roots[r.value], file) &&
                        forall j :: 0 <= j < r.value ==> !IsParentOf(roots[j], file)
    ensures r.None? ==> forall j :: 0 <= j < |roots| ==> !IsParentOf(roots[j], file)
    decreases |roots|
  {
    if roots == [] then None
    else if IsParentOf(roots[0], file) then Some(0)
    else
      var r := FirstContainingRoot(roots[1..], file);
      if r.None? then None else Some(r.value + 1)
  }

  /** The map `Collectors.toMap(k -> k, v -> session)` builds from the extensions. */
  function ExtensionMap(exts: seq<string>, s: Session): (m: map<string, Session>)
    ensures forall e :: e in m <==> e in exts
    ensures forall e :: e in m ==> m[e] == s
  {
    map e | e in exts :: s
  }

  predicate HasDuplicates(exts: seq<string>) {
    exists i, j :: 0 <= i < j < |exts| && exts[i] == exts[j]
  }

  /** The keep-alive entries the reaper removes, and the map it leaves. */
  function Stale(ka: map<Session, int>, now: int): set<Session> {
    set s | s in ka && ka[s] < now - KeepAliveMillis
  }

  function Recent(ka: map<Session, int>, now: int): map<Session, int> {
    map s | s in ka && ka[s] >= now - KeepAliveMillis :: ka[s]
  }

  /** The reaper partitions the keep-alive map: the recent entries stay with their stamps, the
      stale ones go, and nothing else. */
  lemma ReaperPartitions(ka: map<Session, int>, now: int)
    ensures Recent(ka, now).Keys + Stale(ka, now) == ka.Keys
    ensures Recent(ka, now).Keys !! Stale(ka, now)
    ensures forall s :: s in Recent(ka, now) ==> Recent(ka, now)[s] == ka[s] && ka[s] >= now - KeepAliveMillis
  {
  }

  predicate NoRepeats<T(==)>(xs: seq<T>) {
    forall i, j :: 0 <= i < j < |xs| ==> xs[i] != xs[j]
  }

  /** What the registry does to sessions and the IDE, in order. */
  datatype RegistryEvent =
    | ChangeFired                 // the IDE's change listeners were notified
    | RefreshOpenedFiles          // opened files were re-announced to the servers
    | Shutdown(session: Session)          // session.shutdown()
    | ShutdownAndKill(session: Session)   // session.shutdownAndKill()
    | Kill(session: Session)              // session.killRunningServerProcess()
    | ShutdownAwaited(session: Session)   // the shutdown request sent and awaited
    | Destroy(session: Session)           // process.destroy()

  /** buildBindings re-announces the opened files only after starting a new session. */
  function RefreshesFor(plan: Plan): seq<RegistryEvent> {
    if plan.Started? then [RefreshOpenedFiles] else []
  }

  /** The registry's static state. `collected` is the garbage collector's view: the sessions
      no longer strongly held whose weak references have been cleared. */
  class BindingFactory {
    var mimeTable: map<Uri, map<string, Session>>
    var extTable: map<FileObj, map<string, Session>>
    var keepAlive: map<Session, int>
    var collected: set<Session>
    var events: seq<RegistryEvent>

    /** Strongly held sessions are never collected: those in the keep-alive map and those of
        the extension table. */
    ghost predicate Valid()
      reads this
    {
      && keepAlive.Keys !! collected
      && ExtensionSessions(extTable) !! collected
    }

    constructor ()
      ensures Valid()
      ensures mimeTable == map[] && extTable == map[] && keepAlive == map[] && collected == {} && events == []
    {
      mimeTable, extTable, keepAlive, collected, events := map[], map[], map[], {}, [];
    }

    function AllSessions(): set<Session>
      reads this
    {
      AllBindings(mimeTable, extTable, collected)
    }

    /** The garbage collector clears the weak references to a session nobody holds strongly. */
    method Collect(s: Session)
      requires Valid()
      requires s !in keepAlive && s !in ExtensionSessions(extTable)
      modifies this
      ensures Valid()
      ensures collected == old(collected) + {s}
      ensures mimeTable == old(mimeTable) && extTable == old(extTable) && keepAlive == old(keepAlive) && events == old(events)
      ensures s !in AllSessions()
    {
      collected := collected + {s};
      AllBindingsMembers(mimeTable, extTable, collected, s);
    }

    /** The outcome of buildBindings for its plan; a started session is new, wraps the
        handshake's result and starts with no opened files. */
    twostate predicate BuildsAs(plan: Plan, new r: Outcome)
      reads if r.Found? then {r.session} else {}
    {
      match plan
      case NoServer => r == NotFound
      case Reuse(_, s) => r == Found(s)
      case Started(_, result, hasProcess) =>
        && r.Found? && fresh(r.session)
        && r.session.initResult == NewLspInitializeResult(result) && r.session.hasProcess == hasProcess
        && r.session.openedFiles == {}
      case Crash(_) => r == Crashed(NullDereference)
      case Hang(_) => r == Hung
    }

    /** buildBindings: asks the providers in order until one yields a session. */
    method BuildBindings(providers: seq<ProviderReply>) returns (r: Outcome)
      modifies this
      ensures mimeTable == old(mimeTable) && extTable == old(extTable) && keepAlive == old(keepAlive) && collected == old(collected)
      ensures BuildsAs(BuildPlan(providers, 0), r)
      ensures events == old(events) + RefreshesFor(BuildPlan(providers, 0))
    {
      var k := 0;
      while k < |providers|
        invariant 0 <= k <= |providers|
        invariant BuildPlan(providers, 0) == BuildPlan(providers, k)
        invariant mimeTable == old(mimeTable) && extTable == old(extTable) && keepAlive == old(keepAlive)
        invariant collected == old(collected) && events == old(events)
      {
        match providers[k] {
          case Decline =>
          case AlreadyBound(s) =>
            return Found(s);
          case Launch(hasProcess, polls) =>
            var outcome, _ := InitServer(hasProcess, polls);
            match outcome {
              case Aborted =>
              case StillWaiting =>
                return Hung;
              case Initialized(result, _) =>
                var b := new Session(result, hasProcess);
                var client := new LanguageClient.LanguageClientImpl();
                var bound := client.SetBindings(Some(b));
                if bound.Failure? {
                  return Crashed(bound.fault);
                }
                events := events + [RefreshOpenedFiles];
                return Found(b);
            }
        }
        k := k + 1;
      }
      return NotFound;
    }
  
    /** The MIME table and keep-alive map after `s` is stored under (uri, mime) and stamped;
        `base` is the MIME table before the lookup. */
    twostate predicate Stored(base: map<Uri, map<string, Session>>, uri: Uri, mime: string, new s: Session, now: int)
      reads this
    {
      && mimeTable == base[uri := MimesAt(base, uri)[mime := s]]
      && keepAlive == old(keepAlive)[s := now]
    }

    /** Nothing changed but the creation of an empty MIME table for `uri`. */
    twostate predicate OnlyCreated(base: map<Uri, map<string, Session>>, uri: Uri)
      reads this
    {
      mimeTable == base[uri := MimesAt(base, uri)] && keepAlive == old(keepAlive) && events == old(events)
    }

    /** The state after a session is built for (uri, mime) and stored when there is one. */
    twostate predicate Built(base: map<Uri, map<string, Session>>, uri: Uri, mime: string, providers: seq<ProviderReply>,
                             now: int, new r: Outcome)
      reads this, if r.Found? then {r.session} else {}
    {
      && BuildsAs(BuildPlan(providers, 0), r)
      && (r.Found? ==>
            Stored(base, uri, mime, r.session, now) &&
            events == old(events) + RefreshesFor(BuildPlan(providers, 0)) + [ChangeFired])
      && (!r.Found? ==> OnlyCreated(base, uri))
    }

    /** What getBindingsImpl returns and leaves behind. The lookup is keyed by the folder's URI
        and the MIME type. A cached session that is still referenced and whose process is not
        dead is returned as it is; otherwise a session is built, stored and announced. A
        returned session is stamped `now` in the keep-alive map. */
    twostate predicate LookedUp(project: Option<FileObj>, file: FileObj, mime: string, providers: seq<ProviderReply>,
                                alive: set<Session>, now: int, new r: Outcome)
      reads this, if r.Found? then {r.session} else {}
    {
      && extTable == old(extTable) && collected == old(collected)
      && (KeyDir(project, file).None? ==>
            r == Crashed(NullDereference) && mimeTable == old(mimeTable) && keepAlive == old(keepAlive) && events == old(events))
      && (KeyDir(project, file).Some? ==>
            var uri := ToUri(KeyDir(project, file).value);
            var cached := Cached(old(mimeTable), old(collected), uri, mime);
            if cached.Some? && IsProcessAlive(cached.value, alive) then
              r == Found(cached.value) && events == old(events) &&
              mimeTable == old(mimeTable)[uri := MimesAt(old(mimeTable), uri)] && keepAlive == old(keepAlive)[cached.value := now]
            else Built(old(mimeTable), uri, mime, providers, now, r))
    }

    /** The second half of getBindingsImpl: build a session, store it under (uri, mime) and
        announce the change. The folder's MIME table has already been created. */
    method BuildAndStore(ghost base: map<Uri, map<string, Session>>, uri: Uri, mime: string, providers: seq<ProviderReply>, now: int)
      returns (r: Outcome)
      requires Valid() && BoundSessionsLive(providers, collected)
      requires mimeTable == base[uri := MimesAt(base, uri)]
      modifies this
      ensures Valid()
      ensures extTable == old(extTable) && collected == old(collected)
      ensures Built(base, uri, mime, providers, now, r)
      ensures r.Found? ==> r.session in AllSessions() && r.session in keepAlive && keepAlive[r.session] == now
    {
      r := BuildBindings(providers);
      if BuildPlan(providers, 0).Reuse? {
        ReuseComesFromBoundDescription(providers);
      }
      if r.Found? {
        assert MimesAt(mimeTable, uri) == MimesAt(base, uri);
        mimeTable := mimeTable[uri := MimesAt(mimeTable, uri)[mime := r.session]];
        events := events + [ChangeFired];
        keepAlive := keepAlive[r.session := now];
        assert mimeTable[uri][mime] == r.session;
        AllBindingsMembers(mimeTable, extTable, collected, r.session);
      }
    }

    /** getBindingsImpl. */
    method GetBindingsImpl(project: Option<FileObj>, file: FileObj, mime: string, providers: seq<ProviderReply>,
                           alive: set<Session>, now: int) returns (r: Outcome)
      requires Valid() && BoundSessionsLive(providers, collected)
      modifies this
      ensures Valid()
      ensures LookedUp(project, file, mime, providers, alive, now, r)
      ensures r.Found? ==> r.session in AllSessions() && r.session in keepAlive && keepAlive[r.session] == now
    {
      var dir := KeyDir(project, file);
      if dir.None? {
        return Crashed(NullDereference);
      }
      var uri := ToUri(dir.value);
      ghost var base := mimeTable;
      mimeTable := mimeTable[uri := MimesAt(mimeTable, uri)];
      var cached := Cached(mimeTable, collected, uri, mime);
      assert cached == Cached(base, collected, uri, mime);
      if cached.Some? && IsProcessAlive(cached.value, alive) {
        keepAlive := keepAlive[cached.value := now];
        r := Found(cached.value);
        AllBindingsMembers(mimeTable, extTable, collected, r.session);
        return;
      }
      r := BuildAndStore(base, uri, mime, providers, now);
    }
  
    /** getBindingForFile (and getBindings of the older copy): the first workspace root, in
        the table's iteration order `roots`, that contains the file decides the extension
        lookup; when that root has no session for the extension, or no root contains the file,
        the lookup falls through to the MIME table. A file without a MIME type has no session. */
    method GetBindingForFile(file: FileObj, roots: seq<FileObj>, mime: Option<string>, project: Option<FileObj>,
                             providers: seq<ProviderReply>, alive: set<Session>, now: int) returns (r: Outcome)
      requires Valid() && BoundSessionsLive(providers, collected)
      requires forall f :: f in roots <==> f in extTable
      modifies this
      ensures Valid()
      ensures var i := FirstContainingRoot(roots, file);
        if i.Some? && file.ext in old(extTable)[roots[i.value]] then
          r == Found(old(extTable)[roots[i.value]][file.ext]) && unchanged(this)
        else if mime.None? then
          r == NotFound && unchanged(this)
        else
          LookedUp(project, file, mime.value, providers, alive, now, r)
      ensures r.Found? ==> r.session in AllSessions()
    {
      var k := 0;
      while k < |roots|
        invariant 0 <= k <= |roots|
        invariant forall j :: 0 <= j < k ==> !IsParentOf(roots[j], file)
      {
        if IsParentOf(roots[k], file) {
          var table := extTable[roots[k]];
          if file.ext in table {
            r := Found(table[file.ext]);
            AllBindingsMembers(mimeTable, extTable, collected, r.session);
            return;
          }
          break;
        }
        k := k + 1;
      }
      if mime.None? {
        return NotFound;
      }
      r := GetBindingsImpl(project, file, mime.value, providers, alive, now);
    }

    /** ensureServerRunning: a lookup keyed by the project directory itself. */
    method EnsureServerRunning(project: FileObj, mime: string, providers: seq<ProviderReply>, alive: set<Session>, now: int)
      returns (r: Outcome)
      requires Valid() && BoundSessionsLive(providers, collected)
      modifies this
      ensures Valid()
      ensures LookedUp(Some(project), project, mime, providers, alive, now, r)
    {
      r := GetBindingsImpl(Some(project), project, mime, providers, alive, now);
    }

    /** addBindings: connect to a server listening on a socket (no process), run the
        handshake, and bind every given extension under `root` to the new session, replacing
        the root's previous table. A failed connection or handshake changes nothing; a
        repeated extension makes the map collector throw, and nothing is bound. */
    method AddBindings(root: FileObj, exts: seq<string>, connects: bool, polls: seq<PollEvent>) returns (r: Outcome)
      requires Valid()
      modifies this
      ensures Valid()
      ensures mimeTable == old(mimeTable) && keepAlive == old(keepAlive) && collected == old(collected)
      ensures !connects ==> r == NotFound && unchanged(this)
      ensures connects ==> match Handshake.Handshake(false, polls)
        case Aborted => r == NotFound && unchanged(this)
        case StillWaiting => r == Hung && unchanged(this)
        case Initialized(result, _) =>
          if NewLspInitializeResult(result).capabilities.raw.None? then
            r == Crashed(NullDereference) && unchanged(this)
          else if HasDuplicates(exts) then
            r == Crashed(DuplicateKey) && unchanged(this)
          else
            && r.Found? && fresh(r.session) && !r.session.hasProcess
            && r.session.initResult == NewLspInitializeResult(result)
            && extTable == old(extTable)[root := ExtensionMap(exts, r.session)]
            && events == old(events) + [ChangeFired]
    {
      if !connects {
        return NotFound;
      }
      var outcome, _ := InitServer(false, polls);
      match outcome {
        case Aborted =>
          return NotFound;
        case StillWaiting =>
          return Hung;
        case Initialized(result, _) =>
          var b := new Session(result, false);
          var client := new LanguageClient.LanguageClientImpl();
          var bound := client.SetBindings(Some(b));
          if bound.Failure? {
            return Crashed(bound.fault);
          }
          var dup := FindDuplicate(exts);
          if dup {
            return Crashed(DuplicateKey);
          }
          ExtensionSessionsAfterBinding(extTable, root, exts, b);
          extTable := extTable[root := ExtensionMap(exts, b)];
          events := events + [ChangeFired];
          return Found(b);
      }
    }

    /** The reaper sweep (run every five minutes): every keep-alive entry stamped before
        `now` minus ten minutes is removed and its session shut down, each exactly once, in
        the map's iteration order `swept`; younger entries and both tables stay. */
    method Reap(now: int) returns (swept: seq<Session>)
      requires Valid()
      modifies this
      ensures Valid()
      ensures keepAlive == Recent(old(keepAlive), now)
      ensures forall s :: s in swept <==> s in Stale(old(keepAlive), now)
      ensures NoRepeats(swept)
      ensures events == old(events) + seq(|swept|, i requires 0 <= i < |swept| => Shutdown(swept[i]))
      ensures mimeTable == old(mimeTable) && extTable == old(extTable) && collected == old(collected)
    {
      var kept;
      kept, swept := SweepStale(keepAlive, now - KeepAliveMillis);
      keepAlive := kept;
      events := events + seq(|swept|, i requires 0 <= i < |swept| => Shutdown(swept[i]));
    }

    /** The older reaper: the process of each stale session is destroyed (a session without a
        process throws, which is swallowed) and its entry removed either way. */
    method LegacyReap(now: int) returns (swept: seq<Session>)
      requires Valid()
      modifies this
      ensures Valid()
      ensures keepAlive == Recent(old(keepAlive), now)
      ensures forall s :: s in swept <==> s in Stale(old(keepAlive), now)
      ensures NoRepeats(swept)
      ensures events == old(events) + DestroyEach(WithProcess(swept))
      ensures mimeTable == old(mimeTable) && extTable == old(extTable) && collected == old(collected)
    {
      var kept;
      kept, swept := SweepStale(keepAlive, now - KeepAliveMillis);
      keepAlive := kept;
      events := events + DestroyEach(WithProcess(swept));
    }

    /** The restarter a provider is handed for (uri, mime): the entry is removed, and a
        session it still refers to leaves the keep-alive map and is shut down and killed. */
    method Restart(uri: Uri, mime: string)
      requires Valid()
      modifies this
      ensures Valid()
      ensures uri in old(mimeTable) ==> mimeTable == old(mimeTable)[uri := old(mimeTable)[uri] - {mime}]
      ensures uri !in old(mimeTable) ==> mimeTable == old(mimeTable)
      ensures var b := Cached(old(mimeTable), old(collected), uri, mime);
        && keepAlive == (if b.Some? then old(keepAlive) - {b.value} else old(keepAlive))
        && events == old(events) + (if b.Some? then [ShutdownAndKill(b.value)] else [])
      ensures extTable == old(extTable) && collected == old(collected)
    {
      var b := Cached(mimeTable, collected, uri, mime);
      if uri in mimeTable {
        mimeTable := mimeTable[uri := mimeTable[uri] - {mime}];
      }
      if b.Some? {
        keepAlive := keepAlive - {b.value};
        events := events + [ShutdownAndKill(b.value)];
      }
    }

    /** The older restarter: the same removal, then a shutdown request that is awaited, and
        the process destroyed when there is one. */
    method LegacyRestart(uri: Uri, mime: string)
      requires Valid()
      modifies this
      ensures Valid()
      ensures uri in old(mimeTable) ==> mimeTable == old(mimeTable)[uri := old(mimeTable)[uri] - {mime}]
      ensures uri !in old(mimeTable) ==> mimeTable == old(mimeTable)
      ensures var b := Cached(old(mimeTable), old(collected), uri, mime);
        && keepAlive == (if b.Some? then old(keepAlive) - {b.value} else old(keepAlive))
        && events == old(events) + (if b.None? then []
                                    else if b.value.hasProcess then [ShutdownAwaited(b.value), Destroy(b.value)]
                                    else [ShutdownAwaited(b.value)])
      ensures extTable == old(extTable) && collected == old(collected)
    {
      var b := Cached(mimeTable, collected, uri, mime);
      if uri in mimeTable {
        mimeTable := mimeTable[uri := mimeTable[uri] - {mime}];
      }
      if b.Some? {
        keepAlive := keepAlive - {b.value};
        events := events + [ShutdownAwaited(b.value)];
        if b.value.hasProcess {
          events := events + [Destroy(b.value)];
        }
      }
    }

    /** Cleanup on IDE exit: every session still referenced from either table has its server
        process killed, once per session, in the order `order`; the tables are left as they
        are. */
    method Cleanup() returns (order: seq<Session>)
      requires Valid()
      modifies this
      ensures forall s :: s in order <==> s in AllSessions()
      ensures NoRepeats(order)
      ensures events == old(events) + seq(|order|, i requires 0 <= i < |order| => Kill(order[i]))
      ensures mimeTable == old(mimeTable) && extTable == old(extTable) && keepAlive == old(keepAlive) && collected == old(collected)
    {
      order := Enumerate(AllSessions());
      events := events + seq(|order|, i requires 0 <= i < |order| => Kill(order[i]));
    }

    /** The older cleanup: the process of every referenced session that has one is destroyed. */
    method LegacyCleanup() returns (order: seq<Session>)
      requires Valid()
      modifies this
      ensures forall s :: s in order <==> s in AllSessions()
      ensures NoRepeats(order)
      ensures events == old(events) + DestroyEach(WithProcess(order))
      ensures mimeTable == old(mimeTable) && extTable == old(extTable) && keepAlive == old(keepAlive) && collected == old(collected)
    {
      order := Enumerate(AllSessions());
      events := events + DestroyEach(WithProcess(order));
    }
  }

  /** Two lookups for the same folder and MIME type, with the first session's process still
      alive: the second returns the same session without asking any provider. */
  method LookupTwice(reg: BindingFactory, project: Option<FileObj>, file: FileObj, mime: string,
                     providers: seq<ProviderReply>, alive: set<Session>, now: int, later: int)
    returns (first: Outcome, second: Outcome)
    requires reg.Valid() && BoundSessionsLive(providers, reg.collected)
    modifies reg
    ensures first.Found? && IsProcessAlive(first.session, alive) ==>
      second == first && first.session in reg.keepAlive && reg.keepAlive[first.session] == later
  {
    first := reg.GetBindingsImpl(project, file, mime, providers, alive, now);
    if first.Found? {
      var uri := ToUri(KeyDir(project, file).value);
      assert Cached(reg.mimeTable, reg.collected, uri, mime) == Some(first.session);
    }
    second := reg.GetBindingsImpl(project, file, mime, [], alive, later);
  }

  /** Iterating a set: each element once, in some order. */
  method Enumerate(sessions: set<Session>) returns (order: seq<Session>)
    ensures forall s :: s in order <==> s in sessions
    ensures NoRepeats(order)
  {
    var todo := sessions;
    order := [];
    while todo != {}
      invariant todo <= sessions
      invariant forall s :: s in order <==> s in sessions && s !in todo
      invariant NoRepeats(order)
      decreases |todo|
    {
      var s :| s in todo;
      order := order + [s];
      todo := todo - {s};
    }
  }

  /** The keep-alive sweep: walks the map, removing each entry stamped before `tooOld`. */
  method SweepStale(ka: map<Session, int>, tooOld: int) returns (kept: map<Session, int>, swept: seq<Session>)
    ensures kept == map s | s in ka && ka[s] >= tooOld :: ka[s]
    ensures forall s :: s in swept <==> s in ka && ka[s] < tooOld
    ensures NoRepeats(swept)
  {
    var todo := ka.Keys;
    kept := ka;
    swept := [];
    while todo != {}
      invariant todo <= ka.Keys
      invariant forall s :: s in kept <==> s in ka && (s in todo || ka[s] >= tooOld)
      invariant forall s :: s in kept ==> kept[s] == ka[s]
      invariant forall s :: s in swept <==> s in ka && s !in todo && ka[s] < tooOld
      invariant NoRepeats(swept)
      decreases |todo|
    {
      var s :| s in todo;
      if kept[s] < tooOld {
        swept := swept + [s];
        kept := kept - {s};
      }
      todo := todo - {s};
    }
  }

  /** `r` is `s` with some elements left out: its elements occur in `s` in the same order. */
  predicate SubsequenceOf<T(==)>(r: seq<T>, s: seq<T>)
    decreases |s|
  {
    if r == [] then true
    else if s == [] then false
    else if r[0] == s[0] then SubsequenceOf(r[1..], s[1..])
    else SubsequenceOf(r, s[1..])
  }

  /** The sessions of `order` that have a process, in order. */
  function WithProcess(order: seq<Session>): (r: seq<Session>)
    ensures forall i :: 0 <= i < |r| ==> r[i] in order && r[i].hasProcess
    ensures forall i :: 0 <= i < |order| && order[i].hasProcess ==> order[i] in r
    ensures SubsequenceOf(r, order)
    ensures NoRepeats(order) ==> NoRepeats(r)
    decreases |order|
  {
    if order == [] then []
    else
      var rest := WithProcess(order[1..]);
      assert forall i :: 1 <= i < |order| ==> order[i] == order[1..][i - 1];
      if order[0].hasProcess then
        assert ([order[0]] + rest)[1..] == rest;
        [order[0]] + rest
      else
        assert rest != [] ==> rest[0] != order[0];
        rest
  }

  function DestroyEach(order: seq<Session>): (events: seq<RegistryEvent>)
    ensures |events| == |order| && forall i :: 0 <= i < |order| ==> events[i] == Destroy(order[i])
  {
    seq(|order|, i requires 0 <= i < |order| => Destroy(order[i]))
  }

  /** Collectors.toMap's duplicate check, as a scan over the extensions. */
  method FindDuplicate(exts: seq<string>) returns (dup: bool)
    ensures dup <==> HasDuplicates(exts)
  {
    var seen: set<string> := {};
    var k := 0;
    while k < |exts|
      invariant 0 <= k <= |exts|
      invariant seen == set i | 0 <= i < k :: exts[i]
      invariant !HasDuplicates(exts[..k])
    {
      if exts[k] in seen {
        var i :| 0 <= i < k && exts[i] == exts[k];
        return true;
      }
      assert forall i :: 0 <= i < k ==> exts[i] != exts[k];
      seen := seen + {exts[k]};
      k := k + 1;
    }
    assert exts[..k] == exts;
    return false;
  }

  /** Binding a root's extensions to one session leaves the bound sessions as before, less
      what the root's old table bound, plus that session. */
  lemma ExtensionSessionsAfterBinding(et: map<FileObj, map<string, Session>>, root: FileObj, exts: seq<string>, s: Session)
    ensures ExtensionSessions(et[root := ExtensionMap(exts, s)]) <= ExtensionSessions(et) + {s}
  {
  }
}
