/**
 Binding a function (`PerformBindProtocol` in src/vgi_bind_protocol.cpp): a first request with the
 secrets the function declares, and at most one retry with the scoped secrets the worker asks for.
 The cache scope of the result must be the fingerprint of the secrets the worker last saw.
 */
module BindProtocol {
  import opened CacheIdentity
  import opened Options

  /** A declared secret, or one the worker looks up. */
  datatype Requirement = Requirement(secretType: string, name: string, scope: string)

  /** The part of a bind request that varies: the secrets it carries, and whether it is the retry. */
  datatype Request = Request(secrets: Secrets, resolvedProvided: bool)

  datatype Response<T> = ScopeRequest(lookups: seq<Requirement>) | Bound(payload: T) | Unparsable

  datatype BindResult<T> = BindResult(payload: T, request: Request, secretDependent: bool, secretScope: string)

  /** The secrets of requests resolved by the catalog (`None`: it throws), and the worker's answers. */
  datatype World<!T> = World(
    resolve: seq<Requirement> -> Option<Secrets>,
    transport: (seq<Request>, Request) -> Response<T>,     // answers may depend on earlier requests
    sha: string -> string)

  ghost function SecretScopeFor(sha: string -> string, dependent: bool, secrets: Secrets): string {
    if dependent then SecretFingerprint(sha, secrets) else ""
  }

  lemma {:induction false} PlusUpdate<T>(a: map<string, T>, b: map<string, T>, k: string, v: T)
    ensures (a + b)[k := v] == a + b[k := v]
  {
  }

  /** `secrets[k] = v` for every scoped secret. */
  method MergeScoped<T>(secrets: map<string, T>, scoped: map<string, T>) returns (r: map<string, T>)
    ensures r == secrets + scoped
  {
    r := secrets;
    var rest := scoped.Keys;
    ghost var done: map<string, T> := map[];
    while rest != {}
      invariant rest <= scoped.Keys && done.Keys == scoped.Keys - rest
      invariant forall k :: k in done ==> done[k] == scoped[k]
      invariant r == secrets + done
      decreases |rest|
    {
      var k :| k in rest;
      PlusUpdate(secrets, done, k, scoped[k]);
      r := r[k := scoped[k]];
      done := done[k := scoped[k]];
      rest := rest - {k};
    }
    assert done == scoped;
  }

  /** What the first request carries. */
  function FirstSecrets<T>(w: World<T>, required: seq<Requirement>): Option<Secrets> {
    w.resolve(required)
  }

  /** What the retry carries: the scoped secrets override. */
  function RetrySecrets<T>(w: World<T>, first: Secrets, lookups: seq<Requirement>): Option<Secrets> {
    if w.resolve(lookups).None? then None else Some(first + w.resolve(lookups).value)
  }

  /** The answer to the `i`th request of `log`. */
  function Answer<T>(w: World<T>, log: seq<Request>, i: nat): Response<T>
    requires i < |log|
  {
    w.transport(log[..i], log[i])
  }

  /**
   `log` is what was sent. A result carries the last request and the scope of exactly its secrets,
   after at most two requests of which only the second says that secrets were provided.
   */
  method PerformBindProtocol<T>(w: World<T>, queryExecutor: bool, required: seq<Requirement>)
    returns (r: Option<BindResult<T>>, log: seq<Request>)
    ensures |log| <= 2
    ensures |log| >= 1 ==> FirstSecrets(w, required) == Some(log[0].secrets) && !log[0].resolvedProvided
    ensures |log| == 2 ==>
      !queryExecutor && Answer(w, log, 0).ScopeRequest? && log[1].resolvedProvided &&
      RetrySecrets(w, log[0].secrets, Answer(w, log, 0).lookups) == Some(log[1].secrets)
    ensures r.Some? ==>
      log != [] && Answer(w, log, |log| - 1) == Bound(r.value.payload) && r.value.request == log[|log| - 1] &&
      r.value.secretDependent == (required != [] || |log| == 2) &&
      r.value.secretScope == SecretScopeFor(w.sha, r.value.secretDependent, log[|log| - 1].secrets)
    ensures r.None? ==>
      (log == [] && ((queryExecutor && required != []) || FirstSecrets(w, required).None?)) ||
      (|log| == 1 && Answer(w, log, 0).ScopeRequest? &&
       (queryExecutor || RetrySecrets(w, log[0].secrets, Answer(w, log, 0).lookups).None?)) ||
      (log != [] && Answer(w, log, |log| - 1).Unparsable?) ||
      (|log| == 2 && Answer(w, log, 1).ScopeRequest?)
    ensures queryExecutor && r.Some? ==> required == [] && |log| == 1 && r.value.secretScope == ""
  {
    log := [];
    if queryExecutor && required != [] { return None, log; }
    var resolved := w.resolve(required);
    if resolved.None? { return None, log; }
    var secrets := resolved.value;
    var dependent := required != [];
    var request := Request(secrets, false);
    var response := w.transport(log, request);
    log := [request];
    assert log[..0] == [];
    if response.ScopeRequest? {
      if queryExecutor { return None, log; }
      dependent := true;
      var lookups: seq<Requirement> := [];
      for i := 0 to |response.lookups|
        invariant lookups == response.lookups[..i]
      {
        lookups := lookups + [response.lookups[i]];
      }
      assert lookups == response.lookups;
      var scoped := w.resolve(lookups);
      if scoped.None? { return None, log; }
      secrets := MergeScoped(secrets, scoped.value);
      request := Request(secrets, true);
      response := w.transport(log, request);
      log := log + [request];
      assert log[..1] == [log[0]] && log[..0] == [];
      if response.ScopeRequest? { return None, log; }
    }
    if response.Unparsable? { return None, log; }
    var scope := "";
    if dependent { scope := ComputeSecretCacheFingerprint(w.sha, secrets); }
    r := Some(BindResult(response.payload, request, dependent, scope));
  }

  /** What `PerformBindProtocol` promises of a result. */
  ghost predicate Scoped<T>(sha: string -> string, r: BindResult<T>) {
    r.secretScope == SecretScopeFor(sha, r.secretDependent, r.request.secrets)
  }

  /**
   Two secret-dependent bind results with the same scope were bound with the same secrets, unless the
   hash collides on them; with different scopes, never.
   */
  lemma {:induction false} SameScopeSameSecrets<T>(sha: string -> string, a: BindResult<T>, b: BindResult<T>)
    requires Scoped(sha, a) && Scoped(sha, b) && a.secretDependent && b.secretDependent
    requires sha(SecretMaterial(a.request.secrets)) != "" && sha(SecretMaterial(b.request.secrets)) != ""
    ensures a.request.secrets == b.request.secrets ==> a.secretScope == b.secretScope
    ensures a.secretScope == b.secretScope ==>
      a.request.secrets == b.request.secrets ||
      (SecretMaterial(a.request.secrets) != SecretMaterial(b.request.secrets) &&
       sha(SecretMaterial(a.request.secrets)) == sha(SecretMaterial(b.request.secrets)))
  {
    FingerprintIdentifies(sha, a.request.secrets, b.request.secrets);
  }

  /** A result that depends on secrets is never scoped like one that does not. */
  lemma {:induction false} DependentScopeIsNonempty<T>(sha: string -> string, a: BindResult<T>)
    requires Scoped(sha, a) && sha(SecretMaterial(a.request.secrets)) != ""
    ensures a.secretScope == "" <==> !a.secretDependent
  {
    FingerprintIdentifies(sha, a.request.secrets, a.request.secrets);
  }
}
