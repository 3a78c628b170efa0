/**
 * The exception objects a ThrowableProxy snapshots, as a finite graph: each
 * throwable is a node naming its cause and its suppressed throwables by index,
 * so cause cycles and shared suppressed throwables are representable.
 */
module Throwables {
  import opened Wrappers

  /** Identity of a throwable (Java compares throwables in the visited sets by identity). */
  type Id = nat
  /** Identity of a class loader. */
  type LoaderId = nat

  /** A `java.lang.StackTraceElement`; equality is field by field, as in its `equals`. */
  datatype Frame = Frame(className: string, methodName: string, fileName: Option<string>, lineNumber: int)

  /**
   * One throwable: what `getClass().getName()`, `getMessage()`, `getLocalizedMessage()`,
   * `getStackTrace()`, `getCause()` and `getSuppressed()` return for it.
   */
  datatype Node = Node(
    className: string,
    message: Option<string>,
    localizedMessage: Option<string>,
    stackTrace: seq<Frame>,
    cause: Option<Id>,
    suppressed: seq<Id>)

  type Graph = seq<Node>

  /** Every cause and suppressed reference of `n` names a throwable of `g`. */
  predicate RefersInto(g: Graph, n: Node) {
    (n.cause.Some? ==> n.cause.value < |g|) &&
    forall j :: 0 <= j < |n.suppressed| ==> n.suppressed[j] < |g|
  }

  predicate ValidGraph(g: Graph) {
    forall i :: 0 <= i < |g| ==> RefersInto(g, g[i])
  }

  /** A live throwable: one node of a well-formed graph. */
  datatype ThrowableRef = ThrowableRef(graph: Graph, id: Id) {
    predicate Valid() {
      ValidGraph(graph) && id < |graph|
    }
  }

  /** The indices `0..n-1`. */
  function Range(n: nat): (r: set<nat>)
    ensures forall i: nat :: i in r <==> i < n
  {
    if n == 0 then {} else Range(n - 1) + {n - 1}
  }

  /** All throwables of the graph. */
  lemma {:induction false} RangeSize(n: nat)
    ensures |Range(n)| == n
  {
    if n > 0 {
      var below := Range(n - 1);
      RangeSize(n - 1);
      assert n - 1 !in below;
      assert |below + {n - 1}| == |below| + 1;
    }
  }

  function Ids(g: Graph): (ids: set<Id>)
    ensures forall i: nat :: i in ids <==> i < |g|
  {
    Range(|g|)
  }

  /**
   * A loaded class (`java.lang.Class`) with what the packaging lookup reads of it: its
   * name, the URL of its code source (absent when there is no protection-domain code
   * source or no location), its package's implementation version and its loader.
   */
  datatype ClassRef = ClassRef(
    name: string,
    codeLocation: Option<string>,
    implementationVersion: Option<string>,
    loader: Option<LoaderId>)

  /**
   * The runtime the snapshot consults: class loading by (last loader, context loader,
   * class name), and the caller class stack `StackLocatorUtil.getCurrentStackTrace()`
   * returns when a proxy for a suppressed throwable is built (its top is the last element).
   */
  datatype ClassEnv = ClassEnv(
    loadClass: (Option<LoaderId>, Option<LoaderId>, string) -> Option<ClassRef>,
    currentStack: seq<ClassRef>)
}
