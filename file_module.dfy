/**
 The imperative model of the `file` template module: the process-wide
 inclusion-depth counter, and `include` as a method that updates it step by
 step around a reentrant call into the template parser. Each method is proved
 to leave the counter and return the outcome that module Inclusion computes.
 */
module FileModule {
  import opened Inclusion

  /** The static field `InternalModuleFile.depth`: one object shared by every
      module instance, so that all inclusion chains count against it. */
  class DepthCounter {
    var depth: int

    constructor ()
      ensures depth == 0
    {
      depth := 0;
    }
  }

  /** A `file` module bound to one document (`this.file`), reading from the
      store and sharing the depth counter with every other instance. */
  class InternalModuleFile {
    const counter: DepthCounter
    const store: Store
    const file: string

    constructor (counter: DepthCounter, store: Store, file: string)
      ensures this.counter == counter && this.store == store && this.file == file
    {
      this.counter := counter;
      this.store := store;
      this.file := file;
    }

    /** `tp.file.include(name)`: resolve, raise the counter and check it, read
        the target and parse it with this module's file as context, then
        lower the counter. Every throw in between leaves the counter as it is. */
    method Include(name: string) returns (r: Outcome)
      modifies counter
      ensures After(r, counter.depth) == IncludeResult(store, file, old(counter.depth), name)
      decreases Budget(counter.depth), 1
    {
      var target := Resolve(store, name);
      if target.None? {
        return Fail(TargetNotFound);
      }
      if target.value.Folder? {
        return Fail(TargetIsFolder);
      }
      counter.depth := counter.depth + 1;
      if counter.depth > DEPTH_LIMIT {
        return Fail(DepthLimitExceeded);
      }
      if !target.value.readable {
        return Fail(ReadFailed);
      }
      r := ParseTemplates(counter, store, file, target.value.body);
      if r.Fail? {
        return;
      }
      counter.depth := counter.depth - 1;
    }
  }

  /** The template parser run on `body` with `ctx` as the context file: it
      binds a fresh `file` module to `ctx` and expands the segments in order,
      stopping at the first failure. */
  method ParseTemplates(counter: DepthCounter, store: Store, ctx: string, body: seq<Segment>)
      returns (r: Outcome)
    modifies counter
    ensures After(r, counter.depth) == ParseResult(store, ctx, old(counter.depth), body)
    decreases Budget(counter.depth), 2
  {
    var bound := new InternalModuleFile(counter, store, ctx);
    ghost var depth := counter.depth;
    var text := "";
    var i := 0;
    while i < |body|
      invariant 0 <= i <= |body|
      invariant counter.depth == depth
      invariant ParseResult(store, ctx, depth, body) ==
        Prepend(text, ParseResult(store, ctx, depth, body[i..]))
    {
      assert body[i..][1..] == body[i + 1..];
      var piece: string;
      if body[i].Literal? {
        piece := body[i].text;
      } else if body[i].ContextPath? {
        piece := ctx;
      } else {
        var included := bound.Include(body[i].target);
        if included.Fail? {
          return included;
        }
        piece := included.text;
      }
      PrependTwice(text, piece, ParseResult(store, ctx, depth, body[i + 1..]));
      text := text + piece;
      i := i + 1;
    }
    assert body[i..] == [];
    assert text + "" == text;
    r := Ok(text);
  }

  /** Two modules bound to different files share one counter: once a
      self-including file has been rejected through the first, an include of
      any file through the second is rejected as well, and the counter is left
      at twelve. */
  method SharedCounterScenario(store: Store, a: string, b: string, fileA: string, fileB: string)
      returns (first: Outcome, second: Outcome, depth: int)
    requires NormalizePath(a) in store && store[NormalizePath(a)] == File(true, [IncludeDirective(a)])
    requires NormalizePath(b) in store && store[NormalizePath(b)].File?
    ensures first == Fail(DepthLimitExceeded) && second == Fail(DepthLimitExceeded)
    ensures depth == DEPTH_LIMIT + 2
  {
    var counter := new DepthCounter();
    var moduleA := new InternalModuleFile(counter, store, fileA);
    var moduleB := new InternalModuleFile(counter, store, fileB);
    first := moduleA.Include(a);
    SelfInclusionSaturatesCounter(store, fileA, a, fileB, b);
    second := moduleB.Include(b);
    depth := counter.depth;
  }

  lemma PrependTwice(a: string, b: string, x: After)
    ensures Prepend(a, Prepend(b, x)) == Prepend(a + b, x)
  {
    match x.outcome
    case Ok(t) => assert a + (b + t) == (a + b) + t;
    case Fail(_) =>
  }

}
