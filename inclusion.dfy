/**
 The value-level model of `tp.file.include`: what one call does to the shared
 inclusion-depth counter and what it returns, as pure functions of the document
 store, the context file, the counter's value before the call and the target
 name. The imperative model in module FileModule is proved equal to these
 functions; the lemmas below state what the code promises about them.
 */
module Inclusion {

  /** The ceiling on the shared counter (`DEPTH_LIMIT`). */
  const DEPTH_LIMIT: int := 10

  /** The template text of a document, abstracted to the parts that matter to
      inclusion: literal text, an `include` directive naming another document,
      and an accessor bound to the context file (such as `tp.file.path(true)`),
      which expands to that file's path. */
  datatype Segment = Literal(text: string) | IncludeDirective(target: string) | ContextPath

  /** What link resolution finds for a name: a folder, or a file whose raw text
      can or cannot be read. */
  datatype Entry = Folder | File(readable: bool, body: seq<Segment>)

  /** The document store: link path to entry. */
  type Store = map<string, Entry>

  datatype Error =
    | TargetNotFound      // thrown at line 60
    | TargetIsFolder      // thrown at line 63
    | DepthLimitExceeded  // thrown at line 70
    | ReadFailed          // the read at line 73 fails

  datatype Outcome = Ok(text: string) | Fail(error: Error)

  /** The outcome of a call together with the counter's value after it. */
  datatype After = After(outcome: Outcome, depth: int)

  datatype Option<T> = None | Some(value: T)

  /** Path normalisation is the host's; the model takes it as the identity. */
  function NormalizePath(name: string): string
  {
    name
  }

  /** First-match link resolution with an empty source path: a lookup. */
  function Resolve(store: Store, name: string): Option<Entry>
  {
    var key := NormalizePath(name);
    if key in store then Some(store[key]) else None
  }

  /** How many more admissions a counter at `depth` allows. */
  function Budget(depth: int): nat
  {
    if depth <= DEPTH_LIMIT then DEPTH_LIMIT + 1 - depth else 0
  }

  /** Adds `prefix` in front of a successful outcome; a failure passes through. */
  function Prepend(prefix: string, a: After): After
  {
    match a.outcome
    case Ok(t) => After(Ok(prefix + t), a.depth)
    case Fail(_) => a
  }

  /** One `include(name)` call made while the counter is at `depth`, with
      `ctx` the file the including module is bound to. */
  function IncludeResult(store: Store, ctx: string, depth: int, name: string): (r: After)
    ensures r.outcome.Ok? ==> r.depth == depth
    ensures r.depth >= depth
    decreases Budget(depth), 1
  {
    match Resolve(store, name)
    case None => After(Fail(TargetNotFound), depth)
    case Some(Folder) => After(Fail(TargetIsFolder), depth)
    case Some(File(readable, body)) =>
      if depth + 1 > DEPTH_LIMIT then After(Fail(DepthLimitExceeded), depth + 1)
      else if !readable then After(Fail(ReadFailed), depth + 1)
      else
        var parsed := ParseResult(store, ctx, depth + 1, body);
        if parsed.outcome.Fail? then parsed else After(parsed.outcome, parsed.depth - 1)
  }

  /** The parser run over `body` with `ctx` as the context file: segments are
      expanded in order and the first failure ends the run. */
  function ParseResult(store: Store, ctx: string, depth: int, body: seq<Segment>): (r: After)
    ensures r.outcome.Ok? ==> r.depth == depth
    ensures r.depth >= depth
    decreases Budget(depth), 2, |body|
  {
    if body == [] then After(Ok(""), depth)
    else
      var first :=
        match body[0]
        case Literal(t) => After(Ok(t), depth)
        case ContextPath => After(Ok(ctx), depth)
        case IncludeDirective(n) => IncludeResult(store, ctx, depth, n);
      if first.outcome.Fail? then first
      else Prepend(first.outcome.text, ParseResult(store, ctx, depth, body[1..]))
  }

  // ---------------------------------------------------------------------------
  // The exit paths of one call
  // ---------------------------------------------------------------------------

  /** A name that resolves to nothing fails before the counter is touched. */
  lemma MissingTargetKeepsDepth(store: Store, ctx: string, depth: int, name: string)
    requires NormalizePath(name) !in store
    ensures IncludeResult(store, ctx, depth, name) == After(Fail(TargetNotFound), depth)
  {
  }

  /** A name that resolves to a folder fails before the counter is touched. */
  lemma FolderTargetKeepsDepth(store: Store, ctx: string, depth: int, name: string)
    requires NormalizePath(name) in store && store[NormalizePath(name)] == Folder
    ensures IncludeResult(store, ctx, depth, name) == After(Fail(TargetIsFolder), depth)
  {
  }

  /** A name that resolves to a file raises the counter by one; the call is
      rejected with the depth-limit error exactly when the raised value exceeds
      the limit, and the raised value is then kept. */
  lemma AdmissionCheck(store: Store, ctx: string, depth: int, name: string)
    requires NormalizePath(name) in store && store[NormalizePath(name)].File?
    ensures depth + 1 > DEPTH_LIMIT ==>
      IncludeResult(store, ctx, depth, name) == After(Fail(DepthLimitExceeded), depth + 1)
    ensures depth + 1 <= DEPTH_LIMIT ==>
      IncludeResult(store, ctx, depth, name).outcome.Fail? ==>
      IncludeResult(store, ctx, depth, name).depth >= depth + 1
  {
  }

  /** An admitted file that cannot be read fails with the counter left one higher. */
  lemma ReadFailureKeepsIncrement(store: Store, ctx: string, depth: int, name: string)
    requires NormalizePath(name) in store
    requires store[NormalizePath(name)].File? && !store[NormalizePath(name)].readable
    requires depth + 1 <= DEPTH_LIMIT
    ensures IncludeResult(store, ctx, depth, name) == After(Fail(ReadFailed), depth + 1)
  {
  }

  /** An admitted file whose text has no directives expands to the
      concatenation of its literal text, and the counter is restored. */
  lemma {:induction false} LiteralBody(store: Store, ctx: string, depth: int, body: seq<Segment>)
    requires forall i :: 0 <= i < |body| ==> body[i].Literal?
    ensures ParseResult(store, ctx, depth, body) == After(Ok(Concat(body)), depth)
    decreases |body|
  {
    if body != [] {
      LiteralBody(store, ctx, depth, body[1..]);
    }
  }

  /** The text of a sequence of literal segments. */
  function Concat(body: seq<Segment>): string
    requires forall i :: 0 <= i < |body| ==> body[i].Literal?
  {
    if body == [] then "" else body[0].text + Concat(body[1..])
  }

  // ---------------------------------------------------------------------------
  // Where the counter ends up after a failure
  // ---------------------------------------------------------------------------

  /** From a counter at or below the limit, a call leaves the counter at most
      one above the limit, and a call that fails with the depth-limit error
      leaves it exactly one above: every level that was admitted on the way
      down keeps its increment. */
  lemma {:induction false} IncludeFailureDepth(store: Store, ctx: string, depth: int, name: string)
    requires depth <= DEPTH_LIMIT
    ensures IncludeResult(store, ctx, depth, name).depth <= DEPTH_LIMIT + 1
    ensures IncludeResult(store, ctx, depth, name).outcome == Fail(DepthLimitExceeded) ==>
      IncludeResult(store, ctx, depth, name).depth == DEPTH_LIMIT + 1
    decreases Budget(depth), 1
  {
    match Resolve(store, name)
    case None =>
    case Some(Folder) =>
    case Some(File(readable, body)) =>
      if depth + 1 <= DEPTH_LIMIT && readable {
        ParseFailureDepth(store, ctx, depth + 1, body);
      }
  }

  /** The same bound for a parser run. */
  lemma {:induction false} ParseFailureDepth(store: Store, ctx: string, depth: int, body: seq<Segment>)
    requires depth <= DEPTH_LIMIT
    ensures ParseResult(store, ctx, depth, body).depth <= DEPTH_LIMIT + 1
    ensures ParseResult(store, ctx, depth, body).outcome == Fail(DepthLimitExceeded) ==>
      ParseResult(store, ctx, depth, body).depth == DEPTH_LIMIT + 1
    decreases Budget(depth), 2, |body|
  {
    if body != [] {
      if body[0].IncludeDirective? {
        IncludeFailureDepth(store, ctx, depth, body[0].target);
      }
      var first :=
        match body[0]
        case Literal(t) => After(Ok(t), depth)
        case ContextPath => After(Ok(ctx), depth)
        case IncludeDirective(n) => IncludeResult(store, ctx, depth, n);
      if first.outcome.Ok? {
        ParseFailureDepth(store, ctx, depth, body[1..]);
      }
    }
  }

  /** Once the counter is at the limit or above (as a rejection leaves it),
      every later include of a file fails with the depth-limit error, whatever
      module makes the call. */
  lemma SaturatedCounterRejects(store: Store, ctx: string, depth: int, name: string)
    requires depth >= DEPTH_LIMIT
    requires NormalizePath(name) in store && store[NormalizePath(name)].File?
    ensures IncludeResult(store, ctx, depth, name) == After(Fail(DepthLimitExceeded), depth + 1)
  {
  }

  /** With the counter at the limit or above, a whole parse fails with the
      depth-limit error as soon as it reaches an include of a file: no later
      expansion that includes anything can succeed. */
  lemma {:induction false} SaturatedCounterRejectsParse(store: Store, ctx: string, depth: int,
                                                        prefix: seq<Segment>, name: string, rest: seq<Segment>)
    requires depth >= DEPTH_LIMIT
    requires forall i :: 0 <= i < |prefix| ==> !prefix[i].IncludeDirective?
    requires NormalizePath(name) in store && store[NormalizePath(name)].File?
    ensures ParseResult(store, ctx, depth, prefix + [IncludeDirective(name)] + rest) ==
      After(Fail(DepthLimitExceeded), depth + 1)
    decreases |prefix|
  {
    var body := prefix + [IncludeDirective(name)] + rest;
    if prefix == [] {
      assert body[0] == IncludeDirective(name);
    } else {
      assert body[1..] == prefix[1..] + [IncludeDirective(name)] + rest;
      SaturatedCounterRejectsParse(store, ctx, depth, prefix[1..], name, rest);
    }
  }

  // ---------------------------------------------------------------------------
  // Chains of includes
  // ---------------------------------------------------------------------------

  /** `names[0]` includes `names[1]`, which includes `names[2]`, and so on;
      the last file includes nothing. */
  ghost predicate IsChain(store: Store, names: seq<string>)
  {
    && |names| > 0
    && (forall i :: 0 <= i < |names| - 1 ==>
          NormalizePath(names[i]) in store &&
          store[NormalizePath(names[i])] == File(true, [IncludeDirective(names[i + 1])]))
    && NormalizePath(names[|names| - 1]) in store
    && store[NormalizePath(names[|names| - 1])] == File(true, [])
  }

  /** Starting from a counter at `depth`, a chain of `|names|` files succeeds
      and restores the counter when `depth + |names|` stays within the limit,
      and otherwise fails with the depth-limit error leaving the counter one
      above the limit. */
  lemma {:induction false} ChainResult(store: Store, ctx: string, depth: int, names: seq<string>)
    requires 0 <= depth <= DEPTH_LIMIT
    requires IsChain(store, names)
    ensures IncludeResult(store, ctx, depth, names[0]) ==
      if depth + |names| <= DEPTH_LIMIT then After(Ok(""), depth)
      else After(Fail(DepthLimitExceeded), DEPTH_LIMIT + 1)
    decreases |names|
  {
    if depth + 1 <= DEPTH_LIMIT && |names| > 1 {
      var rest := names[1..];
      assert IsChain(store, rest) by {
        forall i | 0 <= i < |rest| - 1
          ensures NormalizePath(rest[i]) in store &&
                  store[NormalizePath(rest[i])] == File(true, [IncludeDirective(rest[i + 1])])
        {
          assert rest[i] == names[i + 1] && rest[i + 1] == names[i + 2];
        }
      }
      assert store[NormalizePath(names[0])] == File(true, [IncludeDirective(names[1])]);
      ChainResult(store, ctx, depth + 1, rest);
      var body := [IncludeDirective(names[1])];
      assert body[1..] == [];
      var inner := IncludeResult(store, ctx, depth + 1, names[1]);
      assert ParseResult(store, ctx, depth + 1, body) ==
        if inner.outcome.Fail? then inner
        else Prepend(inner.outcome.text, ParseResult(store, ctx, depth + 1, []));
    } else if |names| > 1 {
      assert store[NormalizePath(names[0])] == File(true, [IncludeDirective(names[1])]);
    } else {
      assert store[NormalizePath(names[0])] == File(true, []);
    }
  }

  /** From a zero counter, ten chained files succeed and leave the counter at zero. */
  lemma ChainOfTenSucceeds(store: Store, ctx: string, names: seq<string>)
    requires IsChain(store, names) && |names| == 10
    ensures IncludeResult(store, ctx, 0, names[0]) == After(Ok(""), 0)
  {
    ChainResult(store, ctx, 0, names);
  }

  /** From a zero counter, the eleventh of eleven chained files is rejected. */
  lemma ChainOfElevenFails(store: Store, ctx: string, names: seq<string>)
    requires IsChain(store, names) && |names| == 11
    ensures IncludeResult(store, ctx, 0, names[0]) == After(Fail(DepthLimitExceeded), 11)
  {
    ChainResult(store, ctx, 0, names);
  }

  // ---------------------------------------------------------------------------
  // Self-inclusion
  // ---------------------------------------------------------------------------

  /** A file whose text starts by including itself fails with the depth-limit
      error, from any counter value at or below the limit; the counter ends one
      above the limit, that is, every admitted level keeps its increment. */
  lemma {:induction false} SelfInclusionFails(store: Store, ctx: string, depth: int, name: string)
    requires 0 <= depth <= DEPTH_LIMIT
    requires NormalizePath(name) in store
    requires store[NormalizePath(name)].File? && store[NormalizePath(name)].readable
    requires |store[NormalizePath(name)].body| > 0
    requires store[NormalizePath(name)].body[0] == IncludeDirective(name)
    ensures IncludeResult(store, ctx, depth, name) == After(Fail(DepthLimitExceeded), DEPTH_LIMIT + 1)
    decreases DEPTH_LIMIT - depth
  {
    if depth + 1 <= DEPTH_LIMIT {
      SelfInclusionFails(store, ctx, depth + 1, name);
    }
  }

  /** From a zero counter, a self-including file fails after ten admitted
      levels, and the counter is left at eleven, so that afterwards every
      include of any file fails too. */
  lemma SelfInclusionSaturatesCounter(store: Store, ctx: string, name: string, ctx2: string, other: string)
    requires NormalizePath(name) in store
    requires store[NormalizePath(name)] == File(true, [IncludeDirective(name)])
    requires NormalizePath(other) in store && store[NormalizePath(other)].File?
    ensures IncludeResult(store, ctx, 0, name) == After(Fail(DepthLimitExceeded), 11)
    ensures IncludeResult(store, ctx2, 11, other).outcome == Fail(DepthLimitExceeded)
  {
    SelfInclusionFails(store, ctx, 0, name);
  }

  // ---------------------------------------------------------------------------
  // The context file of a nested parse
  // ---------------------------------------------------------------------------

  /** The nested parse runs with the including module's file as its context,
      not the included file: an accessor in a file included two levels down
      still expands to the path of the file the first module is bound to. */
  lemma NestedContextIsIncludingFile(store: Store, ctx: string, depth: int, a: string, b: string)
    requires 0 <= depth && depth + 2 <= DEPTH_LIMIT
    requires NormalizePath(a) in store && store[NormalizePath(a)] == File(true, [IncludeDirective(b)])
    requires NormalizePath(b) in store && store[NormalizePath(b)] == File(true, [ContextPath])
    ensures IncludeResult(store, ctx, depth, a) == After(Ok(ctx), depth)
  {
    var bodyA, bodyB := [IncludeDirective(b)], [ContextPath];
    assert bodyA[1..] == [] && bodyB[1..] == [];
    assert ctx + "" == ctx;
    assert ParseResult(store, ctx, depth + 2, bodyB) == After(Ok(ctx), depth + 2);
    assert IncludeResult(store, ctx, depth + 1, b) == After(Ok(ctx), depth + 1);
    assert ParseResult(store, ctx, depth + 1, bodyA) == After(Ok(ctx), depth + 1);
  }
}
