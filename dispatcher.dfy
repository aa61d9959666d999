/** The HKP request handler `Keyserver` and its `get` and `index` flows.
    A response is modelled as the trace of effects the handler performs, in
    order: each `http.Error` call, the call into the resolver, the header set
    for armored output and the renderer invoked. Because the handler keeps
    going after some `http.Error` calls, a trace can hold more than one
    status write; the status a client receives is the first one. */
module Dispatcher {
  import opened Results
  import opened Resolver
  import opened FailClosed

  const StatusBadRequest := 400
  const StatusNotFound := 404
  const StatusInternalServerError := 500
  const StatusNotImplemented := 501

  /** The two endpoints of the HKP protocol (sections 3 and 4 of
      draft-shaw-openpgp-hkp-00). */
  const PathAdd := "/pks/add"
  const PathLookup := "/pks/lookup"

  /** The value of the `op` variable, as the HKP library spells it. */
  type Operation = string
  const OperationGet: Operation := "get"
  const OperationHGet: Operation := "hget"
  const OperationIndex: Operation := "index"
  const OperationVIndex: Operation := "vindex"
  const OperationStats: Operation := "stats"

  /** The `options` flag that asks for JSON index output. */
  const OptionJSON := "json"

  /** A parsed lookup: the operation, the search term and the option set
      (a flag that is absent reads as false). */
  datatype Lookup = Lookup(op: Operation, search: string, options: map<string, bool>)

  /** The inbound request; only its path is inspected by the handler itself. */
  datatype Request = Request(verb: string, path: string, rawQuery: string, body: seq<bv8>)

  datatype IndexFormat = MRFormat | JSONFormat

  datatype Effect =
      /** `http.Error`: the status, then the message as the body. */
    | HttpError(status: int, message: string)
      /** `keys(l)` runs: the directory is consulted for the search term. */
    | Resolve(search: string)
      /** An index format writes the key set. */
    | WriteIndex(format: IndexFormat, keys: seq<PrimaryKey>)
      /** The Content-Type header is set. */
    | SetContentType(value: string)
      /** `openpgp.WriteArmoredPackets` writes the key set. */
    | WriteArmored(keys: seq<PrimaryKey>)

  /** The collaborators of the handler: the HKP lookup parser, the index
      formats' writers (an error text, or `None`), and the resolver's
      directory and decoder. */
  datatype Gateway = Gateway(
    parseLookup: Request -> Result<Lookup>,
    writeIndex: (IndexFormat, Lookup, seq<PrimaryKey>) -> Option<string>,
    directory: Directory,
    decoder: Decoder)

  predicate WantsJSON(l: Lookup) {
    OptionJSON in l.options && l.options[OptionJSON]
  }

  /** What `keys(l)` returns. */
  function Resolution(g: Gateway, l: Lookup): Result<seq<PrimaryKey>> {
    KeysSpec(g.directory, g.decoder, l.search)
  }

  /** The format `index` writes with. */
  function ChosenFormat(l: Lookup): (f: IndexFormat)
    ensures f == JSONFormat <==> WantsJSON(l)
  {
    if WantsJSON(l) then JSONFormat else MRFormat
  }

  /** `index(w, l)`: the call to `keys(l)`, then what is done with its outcome. */
  function Index(g: Gateway, l: Lookup): seq<Effect> {
    [Resolve(l.search)] + IndexAfter(g, l, Resolution(g, l))
  }

  /** What `index` does once `keys(l)` has returned `resolved`. */
  function IndexAfter(g: Gateway, l: Lookup, resolved: Result<seq<PrimaryKey>>): seq<Effect> {
    match resolved
    case Err(e) => [HttpError(StatusInternalServerError, e)]
    case Ok(keys) =>
      if |keys| == 0 then [HttpError(StatusNotFound, "Not found")]
      else
        var f := ChosenFormat(l);
        [WriteIndex(f, keys)] +
        match g.writeIndex(f, l, keys)
        case None => []
        case Some(e) => [HttpError(StatusInternalServerError, e)]
  }

  /** `get(w, l)`: the call to `keys(l)`, then what is done with its outcome. */
  function Get(g: Gateway, l: Lookup): seq<Effect> {
    [Resolve(l.search)] + GetAfter(Resolution(g, l))
  }

  /** What `get` does once `keys(l)` has returned `resolved`; an error while
      writing the armored keys is only logged. */
  function GetAfter(resolved: Result<seq<PrimaryKey>>): seq<Effect> {
    match resolved
    case Err(e) => [HttpError(StatusInternalServerError, e)]
    case Ok(keys) =>
      if |keys| == 0 then [HttpError(StatusNotFound, "Not found")]
      else [SetContentType("text/plain"), WriteArmored(keys)]
  }

  /** The `switch` on the operation. */
  function Route(g: Gateway, l: Lookup): seq<Effect> {
    if l.op == OperationGet || l.op == OperationHGet then Get(g, l)
    else if l.op == OperationIndex then Index(g, l)
    else if l.op == OperationVIndex then Index(g, l)
    else if l.op == OperationStats then [HttpError(StatusNotImplemented, "Operation not implemented")]
    else [HttpError(StatusBadRequest, "operation not found: " + l.op)]
  }

  /** Everything after the path checks: parse the lookup, then route it. */
  function HandleLookup(g: Gateway, req: Request): seq<Effect> {
    match g.parseLookup(req)
    case Err(e) => [HttpError(StatusBadRequest, e)]
    case Ok(l) => Route(g, l)
  }

  /** `Keyserver(w, r)` as written: the not-found branch does not return. */
  function Keyserver(g: Gateway, req: Request): seq<Effect> {
    if req.path == PathAdd then [HttpError(StatusNotImplemented, "Not Implemented")]
    else
      (if req.path != PathLookup then [HttpError(StatusNotFound, "Not Found")] else []) +
      HandleLookup(g, req)
  }

  /** The operations that consult the directory. */
  predicate Resolves(op: Operation) {
    op in {OperationGet, OperationHGet, OperationIndex, OperationVIndex}
  }

  // ------------------------------------------------------------ properties

  /** Submissions are refused whatever the verb, query or body, before any
      parsing or resolution. */
  lemma AddIsNotImplemented(g: Gateway, req: Request)
    requires req.path == PathAdd
    ensures Keyserver(g, req) == [HttpError(StatusNotImplemented, "Not Implemented")]
    ensures forall s :: Resolve(s) !in Keyserver(g, req)
  {
  }

  /** An unknown path is answered 404 first, and then handled exactly as the
      same lookup sent to /pks/lookup would be. */
  lemma UnknownPathNotFoundFirst(g: Gateway, req: Request, asLookup: Request)
    requires req.path != PathAdd && req.path != PathLookup
    requires asLookup.path == PathLookup && g.parseLookup(asLookup) == g.parseLookup(req)
    ensures Keyserver(g, req)[0] == HttpError(StatusNotFound, "Not Found")
    ensures Keyserver(g, req)[1..] == Keyserver(g, asLookup)
  {
  }

  /** A lookup that does not parse is a bad request carrying the parser's
      message, and nothing is resolved. */
  lemma ParseFailureIsBadRequest(g: Gateway, req: Request)
    requires req.path == PathLookup && g.parseLookup(req).Err?
    ensures Keyserver(g, req) == [HttpError(StatusBadRequest, g.parseLookup(req).error)]
  {
  }

  /** The directory is consulted exactly for a parsed get, hget, index or
      vindex lookup on a path other than /pks/add, with its search term. */
  lemma ResolvesExactlyForKeyOperations(g: Gateway, req: Request, s: string)
    ensures Resolve(s) in Keyserver(g, req) <==>
              && req.path != PathAdd
              && g.parseLookup(req).Ok?
              && Resolves(g.parseLookup(req).value.op)
              && s == g.parseLookup(req).value.search
  {
    if req.path != PathAdd && g.parseLookup(req).Ok? {
      var l := g.parseLookup(req).value;
      var prefix := if req.path != PathLookup then [HttpError(StatusNotFound, "Not Found")] else [];
      assert Keyserver(g, req) == prefix + Route(g, l);
      RouteResolves(g, l, s);
    }
  }

  lemma RouteResolves(g: Gateway, l: Lookup, s: string)
    ensures Resolve(s) in Route(g, l) <==> Resolves(l.op) && s == l.search
  {
    var resolved := Resolution(g, l);
    if l.op == OperationGet || l.op == OperationHGet {
      assert Route(g, l) == [Resolve(l.search)] + GetAfter(resolved);
      AfterNeverResolves(g, l, resolved);
    } else if l.op == OperationIndex || l.op == OperationVIndex {
      assert Route(g, l) == [Resolve(l.search)] + IndexAfter(g, l, resolved);
      AfterNeverResolves(g, l, resolved);
    }
  }

  /** Once `keys(l)` has returned, neither flow consults the directory again. */
  lemma AfterNeverResolves(g: Gateway, l: Lookup, resolved: Result<seq<PrimaryKey>>)
    ensures forall e <- GetAfter(resolved) :: !e.Resolve?
    ensures forall e <- IndexAfter(g, l, resolved) :: !e.Resolve?
  {
  }

  /** get and hget share the get flow; index and vindex share the index flow
      with the lookup unchanged, so verbose output is the brief one. */
  lemma OperationRouting(g: Gateway, l: Lookup)
    ensures l.op == OperationGet || l.op == OperationHGet ==> Route(g, l) == Get(g, l)
    ensures l.op == OperationIndex || l.op == OperationVIndex ==> Route(g, l) == Index(g, l)
    ensures l.op == OperationStats ==>
              Route(g, l) == [HttpError(StatusNotImplemented, "Operation not implemented")]
    ensures !Resolves(l.op) && l.op != OperationStats ==>
              Route(g, l) == [HttpError(StatusBadRequest, "operation not found: " + l.op)]
  {
  }

  /** A failed resolution is an internal error carrying its text, and an
      empty key set is "not found", in both flows. */
  lemma ResolutionOutcomes(g: Gateway, l: Lookup, resolved: Result<seq<PrimaryKey>>)
    ensures resolved.Err? ==>
              && GetAfter(resolved) == [HttpError(StatusInternalServerError, resolved.error)]
              && IndexAfter(g, l, resolved) == GetAfter(resolved)
    ensures resolved == Ok([]) ==>
              && GetAfter(resolved) == [HttpError(StatusNotFound, "Not found")]
              && IndexAfter(g, l, resolved) == GetAfter(resolved)
  {
  }

  /** The renderers only ever receive the resolved key set, and only when it
      is not empty. */
  lemma RenderersGetNonEmptyKeys(g: Gateway, req: Request)
    ensures forall e <- Keyserver(g, req) :: e.WriteIndex? || e.WriteArmored? ==>
              && e.keys != []
              && g.parseLookup(req).Ok?
              && Resolution(g, g.parseLookup(req).value) == Ok(e.keys)
  {
    if req.path != PathAdd && g.parseLookup(req).Ok? {
      var l := g.parseLookup(req).value;
      var prefix := if req.path != PathLookup then [HttpError(StatusNotFound, "Not Found")] else [];
      assert Keyserver(g, req) == prefix + Route(g, l);
      var resolved := Resolution(g, l);
      AfterRendersResolvedKeys(g, l, resolved);
      if l.op == OperationGet || l.op == OperationHGet {
        assert Route(g, l) == [Resolve(l.search)] + GetAfter(resolved);
      } else if l.op == OperationIndex || l.op == OperationVIndex {
        assert Route(g, l) == [Resolve(l.search)] + IndexAfter(g, l, resolved);
      }
    }
  }

  lemma AfterRendersResolvedKeys(g: Gateway, l: Lookup, resolved: Result<seq<PrimaryKey>>)
    ensures forall e <- GetAfter(resolved) :: e.WriteIndex? || e.WriteArmored? ==>
              e.keys != [] && resolved == Ok(e.keys)
    ensures forall e <- IndexAfter(g, l, resolved) :: e.WriteIndex? || e.WriteArmored? ==>
              e.keys != [] && resolved == Ok(e.keys)
  {
  }

  /** Index output uses the JSON format exactly when the JSON option is set,
      one format writes once, and an error from it is an internal error. */
  lemma IndexFormatExclusive(g: Gateway, l: Lookup, keys: seq<PrimaryKey>)
    requires keys != []
    ensures var f := ChosenFormat(l);
            var trace := IndexAfter(g, l, Ok(keys));
            && trace[0] == WriteIndex(f, keys)
            && (forall e <- trace[1..] :: !e.WriteIndex? && !e.WriteArmored?)
            && (g.writeIndex(f, l, keys).None? ==> |trace| == 1)
            && (g.writeIndex(f, l, keys).Some? ==>
                  trace[1..] == [HttpError(StatusInternalServerError, g.writeIndex(f, l, keys).value)])
  {
  }

  /** A non-empty key set is served as plain-text armored keys, and no status
      is written over it. */
  lemma GetServesArmoredKeys(keys: seq<PrimaryKey>)
    requires keys != []
    ensures GetAfter(Ok(keys)) == [SetContentType("text/plain"), WriteArmored(keys)]
    ensures forall e <- GetAfter(Ok(keys)) :: !e.HttpError?
  {
  }

  /** A search matching no user or several users is an internal error (500)
      in both flows, carrying the match-count message. */
  lemma MatchCountIsInternalError(g: Gateway, l: Lookup)
    requires g.directory.searchUsers(l.search).Ok?
    requires |g.directory.searchUsers(l.search).value| != 1
    ensures var msg := MatchCountError(g.directory.searchUsers(l.search).value);
            && Get(g, l) == [Resolve(l.search), HttpError(StatusInternalServerError, msg)]
            && Index(g, l) == Get(g, l)
  {
  }

  // ------------------------------------------------ the missing return

  /** The response gets written: the last effect is a status or a body write. */
  predicate EndsInWrite(trace: seq<Effect>) {
    && trace != []
    && (trace[|trace| - 1].HttpError? || trace[|trace| - 1].WriteIndex? || trace[|trace| - 1].WriteArmored?)
  }

  /** Every `http.Error` is the last thing the handler does. */
  predicate ErrorsAreFinal(trace: seq<Effect>) {
    forall i :: 0 <= i < |trace| - 1 ==> !trace[i].HttpError?
  }

  /** `Keyserver` with a `return` after the not-found answer, as every other
      error branch of the handler has. */
  function KeyserverIntended(g: Gateway, req: Request): (trace: seq<Effect>)
    ensures EndsInWrite(trace) && ErrorsAreFinal(trace)
  {
    if req.path == PathAdd then [HttpError(StatusNotImplemented, "Not Implemented")]
    else if req.path != PathLookup then [HttpError(StatusNotFound, "Not Found")]
    else HandleLookupErrorsAreFinal(g, req); HandleLookup(g, req)
  }

  lemma HandleLookupErrorsAreFinal(g: Gateway, req: Request)
    ensures EndsInWrite(HandleLookup(g, req)) && ErrorsAreFinal(HandleLookup(g, req))
  {
    if g.parseLookup(req).Ok? {
      var l := g.parseLookup(req).value;
      var resolved := Resolution(g, l);
      AfterErrorsAreFinal(g, l, resolved);
      if l.op == OperationGet || l.op == OperationHGet {
        ResolveThen(l.search, GetAfter(resolved));
        assert Route(g, l) == [Resolve(l.search)] + GetAfter(resolved);
      } else if l.op == OperationIndex || l.op == OperationVIndex {
        ResolveThen(l.search, IndexAfter(g, l, resolved));
        assert Route(g, l) == [Resolve(l.search)] + IndexAfter(g, l, resolved);
      }
    }
  }

  lemma AfterErrorsAreFinal(g: Gateway, l: Lookup, resolved: Result<seq<PrimaryKey>>)
    ensures EndsInWrite(GetAfter(resolved)) && ErrorsAreFinal(GetAfter(resolved))
    ensures EndsInWrite(IndexAfter(g, l, resolved)) && ErrorsAreFinal(IndexAfter(g, l, resolved))
  {
  }

  lemma ResolveThen(search: string, rest: seq<Effect>)
    requires EndsInWrite(rest) && ErrorsAreFinal(rest)
    ensures EndsInWrite([Resolve(search)] + rest) && ErrorsAreFinal([Resolve(search)] + rest)
  {
    var t := [Resolve(search)] + rest;
    forall i | 0 <= i < |t| - 1 ensures !t[i].HttpError? {
      if i > 0 {
        assert t[i] == rest[i - 1];
      }
    }
  }

  /** With the return in place, an unknown path is answered 404 and nothing
      else happens; on the two endpoints the handler is unchanged. */
  lemma IntendedNotFoundIsFinal(g: Gateway, req: Request)
    ensures req.path != PathAdd && req.path != PathLookup ==>
              && |KeyserverIntended(g, req)| == 1
              && KeyserverIntended(g, req)[0].HttpError?
              && KeyserverIntended(g, req)[0].status == StatusNotFound
    ensures req.path == PathAdd || req.path == PathLookup ==>
              KeyserverIntended(g, req) == Keyserver(g, req)
  {
  }

  const SampleKey := PrimaryKey([0x99])

  /** A directory with one user holding one well-formed key record. */
  function SampleGateway(): Gateway {
    Gateway(
      req => Ok(Lookup(OperationGet, "alice", map[])),
      (f, l, keys) => None,
      Directory(
        "gitlab.example",
        term => Ok([User(7, "Alice", "alice", "https://gitlab.example/alice")]),
        url => Ok([KeyRecord(1, "K", "2020-01-01T00:00:00Z")])),
      Decoder(text => Ok([]), body => [Ok(SampleKey)], k => Ok(k)))
  }

  lemma SampleUnarmor()
    ensures UnarmorSpec(SampleGateway().decoder, "K") == Ok([SampleKey])
  {
    var dec := SampleGateway().decoder;
    assert dec.readKeys(dec.armorDecode("K").value) == [Ok(SampleKey)];
    UnarmorOneKeyPerRead(dec, "K");
    var keys := UnarmorSpec(dec, "K").value;
    assert dec.dropDuplicates(SampleKey) == Ok(SampleKey);
    assert |keys| == 1 && keys[0] == SampleKey;
    assert keys == [SampleKey];
  }

  lemma SampleListed()
    ensures ListedRecords(SampleGateway().directory, "alice") == Ok([KeyRecord(1, "K", "2020-01-01T00:00:00Z")])
  {
    var dir := SampleGateway().directory;
    assert dir.searchUsers("alice") == Ok([User(7, "Alice", "alice", "https://gitlab.example/alice")]);
  }

  lemma SampleResolves()
    ensures Resolution(SampleGateway(), Lookup(OperationGet, "alice", map[])) == Ok([SampleKey])
  {
    var g := SampleGateway();
    var records := [KeyRecord(1, "K", "2020-01-01T00:00:00Z")];
    SampleUnarmor();
    SampleListed();
    KeysConcatenateRecords(g.directory, g.decoder, "alice");
    assert Values(Decodes(g.decoder, records)) == [[SampleKey]];
    assert Flatten([[SampleKey]]) == [SampleKey] by {
      assert [[SampleKey]][..0] == [];
    }
  }

  lemma SampleGet()
    ensures Get(SampleGateway(), Lookup(OperationGet, "alice", map[])) ==
              [Resolve("alice"), SetContentType("text/plain"), WriteArmored([SampleKey])]
  {
    SampleResolves();
  }

  lemma SampleHandleLookup(req: Request)
    ensures HandleLookup(SampleGateway(), req) ==
              [Resolve("alice"), SetContentType("text/plain"), WriteArmored([SampleKey])]
  {
    var l := Lookup(OperationGet, "alice", map[]);
    assert SampleGateway().parseLookup(req) == Ok(l);
    assert Route(SampleGateway(), l) == Get(SampleGateway(), l);
    SampleGet();
  }

  /** As written, `GET /?op=get&search=alice` is answered 404 and then the
      key is still resolved and written into the 404 response. */
  lemma NotFoundPathStillServesKeys()
    ensures !ErrorsAreFinal(Keyserver(SampleGateway(), Request("GET", "/", "op=get&search=alice", [])))
    ensures Keyserver(SampleGateway(), Request("GET", "/", "op=get&search=alice", [])) ==
              [ HttpError(StatusNotFound, "Not Found"), Resolve("alice"),
                SetContentType("text/plain"), WriteArmored([SampleKey]) ]
  {
    var req := Request("GET", "/", "op=get&search=alice", []);
    SampleHandleLookup(req);
    var trace := Keyserver(SampleGateway(), req);
    assert trace == [HttpError(StatusNotFound, "Not Found")] + HandleLookup(SampleGateway(), req);
    assert trace[0].HttpError? && 0 < |trace| - 1;
  }
}
