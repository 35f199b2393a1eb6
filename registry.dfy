/**
 * The function registry of the evaluation context: named pipe functions,
 * registered once and never replaced, and the chain of resolvers asked in
 * turn for a name, starting with the lookup in the named functions.
 */
module Registry {
  import opened Wrappers
  import BuiltIns

  /** What a pipe function does with the pipe context when it is invoked. */
  datatype PipeFunction =
    | PipeOp                        // `|`: push the value and restart
    | AndOp                         // `&&`
    | OrOp                          // `||`
    | AsOp | LetOp                  // write globals
    | NotOp | TestOp                // `!` and `?`
    | ReplaceOp | InOp              // built-ins that read the context
    | Native(op: BuiltIns.Op)       // a built-in over values
    | Host(arity: nat, id: nat)     // a function registered by the host program
    | Printf(format: string)        // what the `%` resolver creates for a name

  /** The resolvers that can stand in the chain. */
  datatype Resolver =
    | NativeResolver                          // the lookup in the named functions
    | PrintfResolver                          // names starting with `%`
    | Custom(table: map<string, PipeFunction>) // a host resolver: answers its own names, passes the rest on

  /** The outcome of resolving a name: a function, nothing (null), or a thrown error. */
  datatype Resolution = Found(fn: PipeFunction) | NotFound | Failed

  /** One resolver's answer: a result, or `None` when it passes the name to the next resolver. */
  function Answer(r: Resolver, functions: map<string, PipeFunction>, name: string): Option<Resolution> {
    match r
    case NativeResolver => if name in functions then Some(Found(functions[name])) else None
    case PrintfResolver =>
      // indexing the first character of an empty name throws
      if name == "" then Some(Failed)
      else if name[0] == '%' then Some(Found(Printf(name)))
      else None
    case Custom(table) => if name in table then Some(Found(table[name])) else None
  }

  /** Walking the chain: the first resolver that answers decides; past the end the name resolves to null. */
  function Resolve(chain: seq<Resolver>, functions: map<string, PipeFunction>, name: string): Resolution
  {
    if chain == [] then NotFound
    else match Answer(chain[0], functions, name)
      case Some(res) => res
      case None => Resolve(chain[1..], functions, name)
  }

  /** The result is the answer of the first resolver that does not pass, or null when all pass. */
  lemma {:induction false} ResolveFirstAnswer(chain: seq<Resolver>, functions: map<string, PipeFunction>, name: string, k: nat)
    requires k <= |chain|
    requires forall j :: 0 <= j < k ==> Answer(chain[j], functions, name).None?
    ensures k < |chain| && Answer(chain[k], functions, name).Some? ==>
      Resolve(chain, functions, name) == Answer(chain[k], functions, name).value
    ensures k == |chain| ==> Resolve(chain, functions, name) == NotFound
    decreases k
  {
    if k > 0 {
      ResolveFirstAnswer(chain[1..], functions, name, k - 1);
    }
  }

  /**
   * A resolver registered later stands at position 1: after the lookup in
   * the named functions and ahead of every resolver registered before it.
   */
  lemma InsertedAfterLookup(chain: seq<Resolver>, r: Resolver, functions: map<string, PipeFunction>, name: string)
    requires |chain| >= 1 && chain[0] == NativeResolver
    ensures var c := chain[..1] + [r] + chain[1..];
      Resolve(c, functions, name) ==
        if name in functions then Found(functions[name])
        else if Answer(r, functions, name).Some? then Answer(r, functions, name).value
        else Resolve(chain[1..], functions, name)
  {
    var c := chain[..1] + [r] + chain[1..];
    assert c[1..][1..] == chain[1..];
  }

  /** A name starting with `%` that no earlier resolver answers becomes a formatter with that name as its format. */
  lemma PercentNamesFormat(name: string, functions: map<string, PipeFunction>)
    requires |name| > 0 && name[0] == '%' && name !in functions
    ensures Resolve([NativeResolver, PrintfResolver], functions, name) == Found(Printf(name))
    ensures Resolve([NativeResolver, PrintfResolver], functions, "") == (if "" in functions then Found(functions[""]) else Failed)
  {
  }

  /** The registry state: the named functions and the resolver chain. */
  class FunctionRegistry {
    var functions: map<string, PipeFunction>
    var resolvers: seq<Resolver>

    ghost predicate Valid()
      reads this
    {
      |resolvers| >= 1 && resolvers[0] == NativeResolver
    }

    /** The initial state: no named functions, and the chain holding only the lookup in them. */
    constructor ()
      ensures Valid() && functions == map[] && resolvers == [NativeResolver]
    {
      functions := map[];
      resolvers := [NativeResolver];
    }

    /** `RegisterFunction`: `TryAdd`, so a name already registered keeps its first function. */
    method RegisterFunction(name: string, fn: PipeFunction)
      modifies this
      ensures resolvers == old(resolvers)
      ensures name in old(functions) ==> functions == old(functions)
      ensures name !in old(functions) ==> functions == old(functions)[name := fn]
    {
      if name !in functions {
        functions := functions[name := fn];
      }
    }

    /** `RegisterFunctionResolver`: insert at position 1. */
    method RegisterFunctionResolver(r: Resolver)
      requires Valid()
      modifies this
      ensures Valid() && functions == old(functions)
      ensures resolvers == old(resolvers)[..1] + [r] + old(resolvers)[1..]
    {
      resolvers := resolvers[..1] + [r] + resolvers[1..];
    }

    /**
     * `ResolveFunction`: an enumerator over a copy of the chain hands out the
     * resolvers in turn; each either answers or asks for the next one, and an
     * exhausted enumerator hands out a resolver that answers null.
     */
    method ResolveFunction(name: string) returns (res: Resolution)
      ensures res == Resolve(resolvers, functions, name)
    {
      var snapshot := resolvers;
      var k := 0;
      while k < |snapshot|
        invariant 0 <= k <= |snapshot|
        invariant forall j :: 0 <= j < k ==> Answer(snapshot[j], functions, name).None?
      {
        var answer := Answer(snapshot[k], functions, name);
        if answer.Some? {
          ResolveFirstAnswer(snapshot, functions, name, k);
          return answer.value;
        }
        k := k + 1;
      }
      ResolveFirstAnswer(snapshot, functions, name, k);
      res := NotFound;
    }
  }
}
