/**
 * `json::Builder`: a document built by a chain of calls.
 *
 * The builder holds the root node, a stack of the containers still open
 * (the source keeps pointers into the root; here each one is the path that
 * leads from the root to it), the key waiting for its value and a flag
 * telling whether a key is open. The `*Step` functions are the calls as
 * transitions of that state; the class `Builder` holds the same state in
 * fields and its methods are proved to perform exactly those transitions.
 * Every call checks before it changes anything, so a call that throws
 * leaves the state as it was.
 *
 * The context classes of the header (`KeyContext`, `DictItemContext`, ...)
 * restrict at compile time which call may follow which; `Next` is that
 * relation, and `TypestateSound` shows that inside a context other than
 * `BaseContext` every call the context allows succeeds at run time.
 */
module JsonBuilder {
  import opened Wrappers
  import opened Json

  /** One step from a container to an element: an array index or a dictionary key. */
  datatype Step = Index(i: nat) | Field(k: string)

  /** The way from the root to a node; stands for a `Node*` into the root. */
  type Path = seq<Step>

  predicate Container(n: Node) {
    n.Array? || n.Dict?
  }

  /** The element of `n` that `s` selects, if there is one. */
  function Child(n: Node, s: Step): Option<Node> {
    match s
    case Index(i) => if n.Array? && i < |n.items| then Some(n.items[i]) else None
    case Field(k) => if n.Dict? && k in n.entries then Some(n.entries[k]) else None
  }

  /** The node at the end of `p`, if `p` leads anywhere. */
  function Get(n: Node, p: Path): Option<Node>
    decreases |p|
  {
    if p == [] then Some(n)
    else match Child(n, p[0])
      case None => None
      case Some(c) => Get(c, p[1..])
  }

  /** `n` with the element that `s` selects replaced by `c`. */
  function Replace(n: Node, s: Step, c: Node): Node
    requires Child(n, s).Some?
  {
    match s
    case Index(i) => Array(n.items[i := c])
    case Field(k) => Dict(n.entries[k := c])
  }

  /** `n` with the node at the end of `p` replaced by `x`: a write through the pointer. */
  function Put(n: Node, p: Path, x: Node): Node
    decreases |p|
  {
    if p == [] then x
    else match Child(n, p[0])
      case None => n
      case Some(c) => Replace(n, p[0], Put(c, p[1..], x))
  }

  // ---------------------------------------------------------------------
  // Paths.

  /** Following one more step is following the path, then the step. */
  lemma {:induction false} GetSnoc(n: Node, p: Path, s: Step)
    ensures Get(n, p + [s]) == if Get(n, p).Some? then Child(Get(n, p).value, s) else None
    decreases |p|
  {
    if p == [] {
      assert [] + [s] == [s];
      assert [s][1..] == [];
    } else {
      assert (p + [s])[0] == p[0];
      assert (p + [s])[1..] == p[1..] + [s];
      match Child(n, p[0])
      case None =>
      case Some(c) =>
        GetSnoc(c, p[1..], s);
    }
  }

  /** After a write through a path, the path leads to what was written. */
  lemma {:induction false} GetPut(n: Node, p: Path, x: Node)
    requires Get(n, p).Some?
    ensures Get(Put(n, p, x), p) == Some(x)
    decreases |p|
  {
    if p != [] {
      var c := Child(n, p[0]).value;
      var c' := Put(c, p[1..], x);
      GetPut(c, p[1..], x);
      assert Child(Replace(n, p[0], c'), p[0]) == Some(c');
    }
  }

  /** Every node on the way to a node is a container. */
  lemma {:induction false} GetPrefix(n: Node, p: Path, k: nat)
    requires Get(n, p).Some? && k <= |p|
    ensures Get(n, p[..k]).Some?
    ensures k < |p| ==> Container(Get(n, p[..k]).value)
    decreases |p| - k
  {
    if k < |p| {
      GetPrefix(n, p, k + 1);
      assert p[..k + 1] == p[..k] + [p[k]];
      GetSnoc(n, p[..k], p[k]);
    } else {
      assert p[..k] == p;
    }
  }

  // ---------------------------------------------------------------------
  // The builder's state and its calls.

  /** `root_`, `nodes_stack_`, `key_` and `key_opened_`. */
  datatype BuilderState = BuilderState(root: Node, stack: seq<Path>, key: string, keyOpened: bool)

  /** A fresh builder: a null root, no open container and no open key. */
  function Fresh(): (st: BuilderState)
    ensures st.root.Null? && st.stack == [] && !st.keyOpened
  {
    BuilderState(Null, [], "", false)
  }

  /** The innermost open container, `nodes_stack_.back()`. */
  function Top(st: BuilderState): Path
    requires st.stack != []
  {
    st.stack[|st.stack| - 1]
  }

  /** The node at the top of the stack, if the stack is not empty. */
  function TopNode(st: BuilderState): Option<Node> {
    if st.stack == [] then None else Get(st.root, Top(st))
  }

  /**
   * The stack is the chain of containers from the root down to the
   * innermost open one, and an open key belongs to a dictionary.
   */
  ghost predicate Valid(st: BuilderState) {
    if st.stack == [] then !st.keyOpened
    else
      var top := Top(st);
      && |top| == |st.stack| - 1
      && (forall i :: 0 <= i < |st.stack| ==> st.stack[i] == top[..i])
      && Get(st.root, top).Some? && Container(Get(st.root, top).value)
      && (st.keyOpened ==> Get(st.root, top).value.Dict?)
  }

  /** `Key`: open `k` in the dictionary on top, with a null placeholder. */
  function KeyStep(st: BuilderState, k: string): Result<BuilderState, JsonError> {
    if st.root.Null? then Err(LogicError)
    else if st.stack == [] then Err(LogicError)
    else match Get(st.root, Top(st))
      case Some(Dict(m)) =>
        if !st.keyOpened then Ok(st.(root := Put(st.root, Top(st), Dict(m[k := Null])), key := k, keyOpened := true))
        else Err(LogicError)
      case _ => Err(LogicError)
  }

  /** `Value`: the root of a fresh document, the next element of an array, or the value of the open key. */
  function ValueStep(st: BuilderState, v: Node): Result<BuilderState, JsonError> {
    if st.root.Null? then Ok(st.(root := v))
    else if st.stack == [] then Err(LogicError)
    else match Get(st.root, Top(st))
      case Some(Array(items)) => Ok(st.(root := Put(st.root, Top(st), Array(items + [v]))))
      case Some(Dict(m)) =>
        if st.keyOpened then Ok(st.(root := Put(st.root, Top(st), Dict(m[st.key := v])), key := "", keyOpened := false))
        else Err(LogicError)
      case _ => Err(LogicError)
  }

  /**
   * `StartDict` and `StartArray`, which differ only in the empty container
   * `c` they place where `Value` would place a value, and then open.
   */
  function OpenStep(st: BuilderState, c: Node): Result<BuilderState, JsonError> {
    if st.root.Null? then Ok(st.(root := c, stack := st.stack + [[]]))
    else if st.stack == [] then Err(LogicError)
    else
      var top := Top(st);
      match Get(st.root, top)
      case Some(Array(items)) =>
        Ok(st.(root := Put(st.root, top, Array(items + [c])), stack := st.stack + [top + [Index(|items|)]]))
      case Some(Dict(m)) =>
        if st.keyOpened then
          Ok(st.(root := Put(st.root, top, Dict(m[st.key := c])), stack := st.stack + [top + [Field(st.key)]],
                 key := "", keyOpened := false))
        else Err(LogicError)
      case _ => Err(LogicError)
  }

  function StartDictStep(st: BuilderState): Result<BuilderState, JsonError> {
    OpenStep(st, Dict(map[]))
  }

  function StartArrayStep(st: BuilderState): Result<BuilderState, JsonError> {
    OpenStep(st, Array([]))
  }

  /** `EndDict`: close the dictionary on top, which has no open key. */
  function EndDictStep(st: BuilderState): Result<BuilderState, JsonError> {
    if st.stack != [] && TopNode(st).Some? && TopNode(st).value.Dict? && !st.keyOpened
    then Ok(st.(stack := st.stack[..|st.stack| - 1]))
    else Err(LogicError)
  }

  /** `EndArray`: close the array on top. */
  function EndArrayStep(st: BuilderState): Result<BuilderState, JsonError> {
    if st.stack != [] && TopNode(st).Some? && TopNode(st).value.Array?
    then Ok(st.(stack := st.stack[..|st.stack| - 1]))
    else Err(LogicError)
  }

  /** `Build`: the finished document. */
  function BuildStep(st: BuilderState): Result<Node, JsonError> {
    if st.root.Null? then Err(LogicError)
    else if st.stack != [] then Err(LogicError)
    else Ok(st.root)
  }

  // ---------------------------------------------------------------------
  // What each call does.

  /**
   * `Key` throws for an empty document, outside any container, when the
   * container on top is not a dictionary, or when a key is already open;
   * otherwise the key is open with a null placeholder under it.
   */
  lemma {:induction false} KeySpec(st: BuilderState, k: string)
    requires Valid(st)
    ensures KeyStep(st, k).Err? <==>
              st.root.Null? || st.stack == [] || !TopNode(st).value.Dict? || st.keyOpened
    ensures KeyStep(st, k).Ok? ==>
              var st' := KeyStep(st, k).value;
              && st'.stack == st.stack && st'.key == k && st'.keyOpened
              && TopNode(st') == Some(Dict(TopNode(st).value.entries[k := Null]))
  {
    if KeyStep(st, k).Ok? {
      GetPut(st.root, Top(st), Dict(TopNode(st).value.entries[k := Null]));
    }
  }

  /**
   * `Value` on an empty document makes the value the root. Otherwise it
   * throws outside any container; it appends to an array on top; on a
   * dictionary on top it writes under the open key and closes it, and
   * throws when no key is open.
   */
  lemma {:induction false} ValueSpec(st: BuilderState, v: Node)
    requires Valid(st)
    ensures st.root.Null? ==> ValueStep(st, v) == Ok(BuilderState(v, [], st.key, false))
    ensures !st.root.Null? && st.stack == [] ==> ValueStep(st, v).Err?
    ensures !st.root.Null? && st.stack != [] && TopNode(st).value.Array? ==>
              && ValueStep(st, v).Ok?
              && ValueStep(st, v).value.stack == st.stack
              && TopNode(ValueStep(st, v).value) == Some(Array(TopNode(st).value.items + [v]))
    ensures !st.root.Null? && st.stack != [] && TopNode(st).value.Dict? ==>
              && (ValueStep(st, v).Ok? <==> st.keyOpened)
              && (st.keyOpened ==>
                    var st' := ValueStep(st, v).value;
                    st'.stack == st.stack && !st'.keyOpened
                    && TopNode(st') == Some(Dict(TopNode(st).value.entries[st.key := v])))
  {
    if st.root.Null? {
      NullRootEmptyStack(st);
    } else if st.stack != [] {
      var top := TopNode(st).value;
      if top.Array? {
        GetPut(st.root, Top(st), Array(top.items + [v]));
      } else if top.Dict? && st.keyOpened {
        GetPut(st.root, Top(st), Dict(top.entries[st.key := v]));
      }
    }
  }

  /** With the stack non-empty the root is a container, so a null root means nothing is open. */
  lemma {:induction false} NullRootEmptyStack(st: BuilderState)
    requires Valid(st) && st.root.Null?
    ensures st.stack == [] && !st.keyOpened
  {
    if st.stack != [] {
      assert Top(st)[..0] == [];
      GetPrefix(st.root, Top(st), 0);
    }
  }

  /**
   * `StartDict`/`StartArray` open exactly one new empty container `c`: at
   * the root of an empty document, appended to an array on top, or under
   * the open key of a dictionary on top (closing the key). They throw
   * outside any container and on a dictionary without an open key.
   */
  lemma {:induction false} OpenSpec(st: BuilderState, c: Node)
    requires Valid(st) && (c == Dict(map[]) || c == Array([]))
    ensures OpenStep(st, c).Ok? <==>
              st.root.Null? || (st.stack != [] && (TopNode(st).value.Array? || st.keyOpened))
    ensures OpenStep(st, c).Ok? ==>
              var st' := OpenStep(st, c).value;
              && |st'.stack| == |st.stack| + 1 && st'.stack[..|st.stack|] == st.stack
              && TopNode(st') == Some(c) && !st'.keyOpened
  {
    if st.root.Null? {
      NullRootEmptyStack(st);
    } else if OpenStep(st, c).Ok? {
      var st' := OpenStep(st, c).value;
      assert st'.stack[..|st.stack|] == st.stack;
      var top := TopNode(st).value;
      if top.Array? {
        var x := Array(top.items + [c]);
        GetPut(st.root, Top(st), x);
        GetSnoc(st'.root, Top(st), Index(|top.items|));
      } else {
        var x := Dict(top.entries[st.key := c]);
        GetPut(st.root, Top(st), x);
        GetSnoc(st'.root, Top(st), Field(st.key));
      }
    }
  }

  /** `EndDict` succeeds exactly on a dictionary on top without an open key, and closes one container. */
  lemma {:induction false} EndDictSpec(st: BuilderState)
    requires Valid(st)
    ensures EndDictStep(st).Ok? <==> st.stack != [] && TopNode(st).value.Dict? && !st.keyOpened
    ensures EndDictStep(st).Ok? ==> EndDictStep(st).value == st.(stack := st.stack[..|st.stack| - 1])
  {
  }

  /** `EndArray` succeeds exactly on an array on top, and closes one container. */
  lemma {:induction false} EndArraySpec(st: BuilderState)
    requires Valid(st)
    ensures EndArrayStep(st).Ok? <==> st.stack != [] && TopNode(st).value.Array?
    ensures EndArrayStep(st).Ok? ==> EndArrayStep(st).value == st.(stack := st.stack[..|st.stack| - 1])
  {
  }

  /** `Build` returns the root exactly when it is not null and nothing is open. */
  lemma {:induction false} BuildSpec(st: BuilderState)
    ensures BuildStep(st).Ok? <==> !st.root.Null? && st.stack == []
    ensures BuildStep(st).Ok? ==> BuildStep(st).value == st.root
  {
  }

  // ---------------------------------------------------------------------
  // The stack stays a chain of open containers.

  lemma {:induction false} FreshValid()
    ensures Valid(Fresh())
  {
  }

  lemma {:induction false} KeyValid(st: BuilderState, k: string)
    requires Valid(st) && KeyStep(st, k).Ok?
    ensures Valid(KeyStep(st, k).value)
  {
    KeySpec(st, k);
  }

  lemma {:induction false} ValueValid(st: BuilderState, v: Node)
    requires Valid(st) && ValueStep(st, v).Ok?
    ensures Valid(ValueStep(st, v).value)
  {
    ValueSpec(st, v);
  }

  /** The stack after pushing the one-step extension of its top is again a chain. */
  lemma {:induction false} PushChain(stack: seq<Path>, top: Path, s: Step)
    requires stack != [] && top == stack[|stack| - 1] && |top| == |stack| - 1
    requires forall i :: 0 <= i < |stack| ==> stack[i] == top[..i]
    ensures var stack' := stack + [top + [s]];
            forall i :: 0 <= i < |stack'| ==> stack'[i] == (top + [s])[..i]
  {
    var stack' := stack + [top + [s]];
    forall i | 0 <= i < |stack'|
      ensures stack'[i] == (top + [s])[..i]
    {
      if i < |stack| {
        assert (top + [s])[..i] == top[..i];
      } else {
        assert (top + [s])[..i] == top + [s];
      }
    }
  }

  lemma {:induction false} OpenValid(st: BuilderState, c: Node)
    requires Valid(st) && (c == Dict(map[]) || c == Array([])) && OpenStep(st, c).Ok?
    ensures Valid(OpenStep(st, c).value)
  {
    OpenSpec(st, c);
    var st' := OpenStep(st, c).value;
    if st.root.Null? {
      NullRootEmptyStack(st);
      assert st'.stack == [[]];
    } else {
      var top := TopNode(st).value;
      var s := if top.Array? then Index(|top.items|) else Field(st.key);
      assert st'.stack == st.stack + [Top(st) + [s]];
      PushChain(st.stack, Top(st), s);
    }
  }

  /** Dropping the top of a chain leaves a chain whose top leads to a container. */
  lemma {:induction false} PopValid(st: BuilderState)
    requires Valid(st) && st.stack != [] && !st.keyOpened
    ensures Valid(st.(stack := st.stack[..|st.stack| - 1]))
  {
    var st' := st.(stack := st.stack[..|st.stack| - 1]);
    var top := Top(st);
    var k := |st.stack| - 2;
    if st'.stack != [] {
      assert Top(st') == st.stack[k] == top[..k];
      GetPrefix(st.root, top, k);
      forall i | 0 <= i < |st'.stack|
        ensures st'.stack[i] == Top(st')[..i]
      {
        assert top[..k][..i] == top[..i];
      }
    }
  }

  lemma {:induction false} EndDictValid(st: BuilderState)
    requires Valid(st) && EndDictStep(st).Ok?
    ensures Valid(EndDictStep(st).value)
  {
    PopValid(st);
  }

  lemma {:induction false} EndArrayValid(st: BuilderState)
    requires Valid(st) && EndArrayStep(st).Ok?
    ensures Valid(EndArrayStep(st).value)
  {
    PopValid(st);
  }

  // ---------------------------------------------------------------------
  // Chains of calls.

  /** One call on the builder other than `Build`. */
  datatype Call = KeyCall(k: string) | ValueCall(v: Node) | StartDictCall | StartArrayCall | EndDictCall | EndArrayCall

  function Apply(st: BuilderState, c: Call): Result<BuilderState, JsonError> {
    match c
    case KeyCall(k) => KeyStep(st, k)
    case ValueCall(v) => ValueStep(st, v)
    case StartDictCall => StartDictStep(st)
    case StartArrayCall => StartArrayStep(st)
    case EndDictCall => EndDictStep(st)
    case EndArrayCall => EndArrayStep(st)
  }

  /** The calls one after the other; the first that throws ends the chain. */
  function Run(st: BuilderState, calls: seq<Call>): Result<BuilderState, JsonError>
    decreases |calls|
  {
    if calls == [] then Ok(st)
    else match Apply(st, calls[0])
      case Err(e) => Err(e)
      case Ok(st') => Run(st', calls[1..])
  }

  /** The number of `Start*` calls and of `End*` calls in a chain. */
  function Opens(calls: seq<Call>): nat
    decreases |calls|
  {
    if calls == [] then 0
    else (if calls[0].StartDictCall? || calls[0].StartArrayCall? then 1 else 0) + Opens(calls[1..])
  }

  function Closes(calls: seq<Call>): nat
    decreases |calls|
  {
    if calls == [] then 0
    else (if calls[0].EndDictCall? || calls[0].EndArrayCall? then 1 else 0) + Closes(calls[1..])
  }

  /** A successful chain leaves as many containers open as it started minus the ones it ended. */
  lemma {:induction false} RunDepth(st: BuilderState, calls: seq<Call>)
    requires Run(st, calls).Ok?
    ensures |Run(st, calls).value.stack| + Closes(calls) == |st.stack| + Opens(calls)
    decreases |calls|
  {
    if calls != [] {
      var st' := Apply(st, calls[0]).value;
      RunDepth(st', calls[1..]);
    }
  }

  /** Every successful chain of calls keeps the stack a chain of open containers. */
  lemma {:induction false} RunValid(st: BuilderState, calls: seq<Call>)
    requires Valid(st) && Run(st, calls).Ok?
    ensures Valid(Run(st, calls).value)
    decreases |calls|
  {
    if calls != [] {
      match calls[0] {
        case KeyCall(k) => KeyValid(st, k);
        case ValueCall(v) => ValueValid(st, v);
        case StartDictCall => OpenValid(st, Dict(map[]));
        case StartArrayCall => OpenValid(st, Array([]));
        case EndDictCall => EndDictValid(st);
        case EndArrayCall => EndArrayValid(st);
      }
      RunValid(Apply(st, calls[0]).value, calls[1..]);
    }
  }

  /**
   * A document built from a fresh builder has a non-null root, and its
   * chain of calls ended exactly as many containers as it started.
   */
  lemma {:induction false} BuildBalanced(calls: seq<Call>)
    requires Run(Fresh(), calls).Ok? && BuildStep(Run(Fresh(), calls).value).Ok?
    ensures Opens(calls) == Closes(calls)
    ensures !BuildStep(Run(Fresh(), calls).value).value.Null?
  {
    RunDepth(Fresh(), calls);
  }

  /** A value given to a fresh builder is the whole document; nothing can be added after it. */
  lemma {:induction false} RootValueIsWholeDocument(v: Node, w: Node, k: string)
    requires !v.Null?
    ensures ValueStep(Fresh(), v).Ok?
    ensures var st := ValueStep(Fresh(), v).value;
            && st.stack == [] && BuildStep(st) == Ok(v)
            && ValueStep(st, w).Err? && StartDictStep(st).Err? && StartArrayStep(st).Err?
            && KeyStep(st, k).Err? && EndDictStep(st).Err? && EndArrayStep(st).Err?
  {
  }

  /**
   * A null given to a fresh builder is not told apart from no value: the
   * builder is still fresh, and `Build` throws as for an empty document.
   */
  lemma {:induction false} NullRootIsForgotten()
    ensures ValueStep(Fresh(), Null) == Ok(Fresh())
    ensures BuildStep(Fresh()).Err?
  {
  }

  /** The states of the chain that builds `{"a": [1]}`. */
  lemma {:induction false} NestedStates()
    ensures StartDictStep(Fresh()) == Ok(BuilderState(Dict(map[]), [[]], "", false))
    ensures KeyStep(BuilderState(Dict(map[]), [[]], "", false), "a")
            == Ok(BuilderState(Dict(map["a" := Null]), [[]], "a", true))
    ensures StartArrayStep(BuilderState(Dict(map["a" := Null]), [[]], "a", true))
            == Ok(BuilderState(Dict(map["a" := Array([])]), [[], [Field("a")]], "", false))
    ensures ValueStep(BuilderState(Dict(map["a" := Array([])]), [[], [Field("a")]], "", false), Int(1))
            == Ok(BuilderState(Dict(map["a" := Array([Int(1)])]), [[], [Field("a")]], "", false))
    ensures EndArrayStep(BuilderState(Dict(map["a" := Array([Int(1)])]), [[], [Field("a")]], "", false))
            == Ok(BuilderState(Dict(map["a" := Array([Int(1)])]), [[]], "", false))
    ensures EndDictStep(BuilderState(Dict(map["a" := Array([Int(1)])]), [[]], "", false))
            == Ok(BuilderState(Dict(map["a" := Array([Int(1)])]), [], "", false))
  {
    assert Fresh().stack + [[]] == [[]];
    assert map["a" := Null]["a" := Array([])] == map["a" := Array([])];
    assert [] + [Field("a")] == [Field("a")];
    assert [[]] + [[] + [Field("a")]] == [[], [Field("a")]];
    assert [] + [Int(1)] == [Int(1)];
    var r3 := Dict(map["a" := Array([])]);
    assert Get(r3, [Field("a")]) == Some(Array([]));
    assert Put(r3, [Field("a")], Array([Int(1)])) == Dict(map["a" := Array([Int(1)])]);
    var r4 := Dict(map["a" := Array([Int(1)])]);
    assert Get(r4, [Field("a")]) == Some(Array([Int(1)]));
  }

  /** `{"a": [1]}` built call by call. */
  lemma {:induction false} NestedDocument()
    ensures var calls := [StartDictCall, KeyCall("a"), StartArrayCall, ValueCall(Int(1)), EndArrayCall, EndDictCall];
            && Run(Fresh(), calls).Ok?
            && BuildStep(Run(Fresh(), calls).value) == Ok(Dict(map["a" := Array([Int(1)])]))
  {
    NestedStates();
    var calls := [StartDictCall, KeyCall("a"), StartArrayCall, ValueCall(Int(1)), EndArrayCall, EndDictCall];
    var s6 := BuilderState(Dict(map["a" := Array([Int(1)])]), [], "", false);
    assert Run(s6, calls[6..]) == Ok(s6);
    assert Run(BuilderState(Dict(map["a" := Array([Int(1)])]), [[]], "", false), calls[5..]) == Ok(s6);
    assert Run(BuilderState(Dict(map["a" := Array([Int(1)])]), [[], [Field("a")]], "", false), calls[4..]) == Ok(s6);
    assert Run(BuilderState(Dict(map["a" := Array([])]), [[], [Field("a")]], "", false), calls[3..]) == Ok(s6);
    assert Run(BuilderState(Dict(map["a" := Null]), [[]], "a", true), calls[2..]) == Ok(s6);
    assert Run(BuilderState(Dict(map[]), [[]], "", false), calls[1..]) == Ok(s6);
  }

  /** A chain run in two parts: the second part starts where the first ended. */
  lemma {:induction false} RunAppend(st: BuilderState, a: seq<Call>, b: seq<Call>)
    ensures Run(st, a + b) == (match Run(st, a) case Err(e) => Err(e) case Ok(s) => Run(s, b))
    decreases |a|
  {
    if a == [] {
      assert a + b == b;
    } else {
      assert (a + b)[0] == a[0] && (a + b)[1..] == a[1..] + b;
      match Apply(st, a[0]) {
        case Err(e) =>
        case Ok(s) => RunAppend(s, a[1..], b);
      }
    }
  }

  /** The calls `Key(ks[0]).Value(vs[0]).Key(ks[1]).Value(vs[1])...`. */
  function PairCalls(ks: seq<string>, vs: seq<Node>): (r: seq<Call>)
    requires |ks| == |vs|
    ensures |r| == 2 * |ks|
    decreases |ks|
  {
    if ks == [] then [] else [KeyCall(ks[0]), ValueCall(vs[0])] + PairCalls(ks[1..], vs[1..])
  }

  /** `m` with each key set to its value in turn, a later key overriding an earlier one. */
  function WithPairs(m: map<string, Node>, ks: seq<string>, vs: seq<Node>): map<string, Node>
    requires |ks| == |vs|
    decreases |ks|
  {
    if ks == [] then m else WithPairs(m[ks[0] := vs[0]], ks[1..], vs[1..])
  }

  /** One `Key(k).Value(v)` in the dictionary that is the only open container. */
  lemma {:induction false} FlatPair(m: map<string, Node>, k: string, v: Node)
    ensures Run(BuilderState(Dict(m), [[]], "", false), [KeyCall(k), ValueCall(v)])
            == Ok(BuilderState(Dict(m[k := v]), [[]], "", false))
  {
    var st := BuilderState(Dict(m), [[]], "", false);
    var st1 := BuilderState(Dict(m[k := Null]), [[]], k, true);
    var st2 := BuilderState(Dict(m[k := v]), [[]], "", false);
    assert Top(st) == [] && Top(st1) == [];
    assert KeyStep(st, k) == Ok(st1);
    assert m[k := Null][k := v] == m[k := v];
    assert ValueStep(st1, v) == Ok(st2);
    assert [KeyCall(k), ValueCall(v)][1..] == [ValueCall(v)];
    assert Run(st2, [ValueCall(v)][1..]) == Ok(st2);
  }

  /** Key/value pairs written into the dictionary that is the only open container. */
  lemma {:induction false} FlatPairs(m: map<string, Node>, ks: seq<string>, vs: seq<Node>)
    requires |ks| == |vs|
    ensures Run(BuilderState(Dict(m), [[]], "", false), PairCalls(ks, vs))
            == Ok(BuilderState(Dict(WithPairs(m, ks, vs)), [[]], "", false))
    decreases |ks|
  {
    var st := BuilderState(Dict(m), [[]], "", false);
    if ks == [] {
      assert PairCalls(ks, vs) == [];
    } else {
      var head := [KeyCall(ks[0]), ValueCall(vs[0])];
      assert PairCalls(ks, vs) == head + PairCalls(ks[1..], vs[1..]);
      RunAppend(st, head, PairCalls(ks[1..], vs[1..]));
      FlatPair(m, ks[0], vs[0]);
      FlatPairs(m[ks[0] := vs[0]], ks[1..], vs[1..]);
    }
  }

  /** `StartDict()` on a fresh builder opens the root dictionary. */
  lemma {:induction false} StartDictFresh()
    ensures Run(Fresh(), [StartDictCall]) == Ok(BuilderState(Dict(map[]), [[]], "", false))
  {
    assert Fresh().stack + [[]] == [[]];
    assert StartDictStep(Fresh()) == Ok(BuilderState(Dict(map[]), [[]], "", false));
    assert [StartDictCall][1..] == [];
  }

  /** `EndDict()` closes the root dictionary, which `Build()` then returns. */
  lemma {:induction false} EndDictRoot(w: map<string, Node>)
    ensures Run(BuilderState(Dict(w), [[]], "", false), [EndDictCall]) == Ok(BuilderState(Dict(w), [], "", false))
    ensures BuildStep(BuilderState(Dict(w), [], "", false)) == Ok(Dict(w))
  {
    var st1 := BuilderState(Dict(w), [[]], "", false);
    assert Top(st1) == [];
    assert EndDictStep(st1) == Ok(BuilderState(Dict(w), [], "", false));
    assert [EndDictCall][1..] == [];
  }

  /**
   * `StartDict()`, then the pairs, then `EndDict()` on a fresh builder: the
   * document built is the dictionary of the pairs.
   */
  lemma {:induction false} FlatDict(ks: seq<string>, vs: seq<Node>)
    requires |ks| == |vs|
    ensures var calls := [StartDictCall] + PairCalls(ks, vs) + [EndDictCall];
            && Run(Fresh(), calls).Ok?
            && BuildStep(Run(Fresh(), calls).value) == Ok(Dict(WithPairs(map[], ks, vs)))
  {
    var pairs := PairCalls(ks, vs);
    StartDictFresh();
    FlatPairs(map[], ks, vs);
    EndDictRoot(WithPairs(map[], ks, vs));
    RunAppend(Fresh(), [StartDictCall], pairs);
    RunAppend(Fresh(), [StartDictCall] + pairs, [EndDictCall]);
  }

  // ---------------------------------------------------------------------
  // The context classes of the header.

  /** `BaseContext` (and `Builder` itself, which offers the same calls), the five narrower contexts, and a built document. */
  datatype Context = Base | KeyCtx | DictItemCtx | ArrayItemCtx | KeyValueCtx | ArrayValueCtx | Built

  datatype CallKind = KeyKind | ValueKind | StartDictKind | StartArrayKind | EndDictKind | EndArrayKind | BuildKind

  function Kind(c: Call): CallKind {
    match c
    case KeyCall(_) => KeyKind
    case ValueCall(_) => ValueKind
    case StartDictCall => StartDictKind
    case StartArrayCall => StartArrayKind
    case EndDictCall => EndDictKind
    case EndArrayCall => EndArrayKind
  }

  /** The context a call returns, or `None` where the context deletes the call. */
  function Next(ctx: Context, k: CallKind): Option<Context> {
    match ctx
    case Base =>
      Some(match k
        case KeyKind => KeyCtx
        case ValueKind => Base
        case StartDictKind => DictItemCtx
        case StartArrayKind => ArrayItemCtx
        case EndDictKind => Base
        case EndArrayKind => Base
        case BuildKind => Built)
    case KeyCtx =>
      if k == ValueKind then Some(KeyValueCtx)
      else if k == StartArrayKind then Some(ArrayItemCtx)
      else if k == StartDictKind then Some(DictItemCtx)
      else None
    case ArrayItemCtx | ArrayValueCtx =>
      if k == ValueKind then Some(ArrayValueCtx)
      else if k == StartDictKind then Some(DictItemCtx)
      else if k == StartArrayKind then Some(ArrayItemCtx)
      else if k == EndArrayKind then Some(Base)
      else None
    case DictItemCtx | KeyValueCtx =>
      if k == KeyKind then Some(KeyCtx)
      else if k == EndDictKind then Some(Base)
      else None
    case Built => None
  }

  /** What a context tells about the builder behind it. */
  predicate Consistent(ctx: Context, st: BuilderState) {
    match ctx
    case Base => true
    case Built => true
    case KeyCtx => st.keyOpened
    case DictItemCtx | KeyValueCtx => TopNode(st).Some? && TopNode(st).value.Dict? && !st.keyOpened
    case ArrayItemCtx | ArrayValueCtx => TopNode(st).Some? && TopNode(st).value.Array?
  }

  /** Which calls each context allows. */
  lemma {:induction false} ContextCalls(ctx: Context, k: CallKind)
    ensures ctx == KeyCtx ==> (Next(ctx, k).Some? <==> k in {ValueKind, StartArrayKind, StartDictKind})
    ensures ctx in {DictItemCtx, KeyValueCtx} ==> (Next(ctx, k).Some? <==> k in {KeyKind, EndDictKind})
    ensures ctx in {ArrayItemCtx, ArrayValueCtx} ==>
              (Next(ctx, k).Some? <==> k in {ValueKind, StartDictKind, StartArrayKind, EndArrayKind})
    ensures Next(ctx, BuildKind).Some? <==> ctx == Base
    ensures Next(ctx, k) == Some(Base) <==>
              (ctx == Base && k == ValueKind) || (Next(ctx, k).Some? && k in {EndDictKind, EndArrayKind})
  {
  }

  /**
   * Inside any context but `BaseContext`, a call the context allows does
   * not throw, and the builder afterwards fits the context returned.
   */
  lemma {:induction false} TypestateSound(ctx: Context, st: BuilderState, c: Call)
    requires Valid(st) && Consistent(ctx, st) && ctx != Base && Next(ctx, Kind(c)).Some?
    ensures Apply(st, c).Ok? && Consistent(Next(ctx, Kind(c)).value, Apply(st, c).value)
  {
    if st.root.Null? {
      NullRootEmptyStack(st);
    }
    match c
    case KeyCall(k) => KeySpec(st, k);
    case ValueCall(v) => ValueSpec(st, v);
    case StartDictCall => OpenSpec(st, Dict(map[]));
    case StartArrayCall => OpenSpec(st, Array([]));
    case EndDictCall =>
    case EndArrayCall =>
  }

  // ---------------------------------------------------------------------
  // The builder object.

  class Builder {
    var root: Node
    var stack: seq<Path>
    var key: string
    var keyOpened: bool

    function State(): BuilderState
      reads this
    {
      BuilderState(root, stack, key, keyOpened)
    }

    constructor()
      ensures State() == Fresh() && Valid(State())
    {
      root, stack, key, keyOpened := Null, [], "", false;
    }

    method Key(k: string) returns (r: Result<Context, JsonError>)
      modifies this
      ensures r.Ok? <==> KeyStep(old(State()), k).Ok?
      ensures r.Ok? ==> r.value == KeyCtx && State() == KeyStep(old(State()), k).value
      ensures r.Err? ==> State() == old(State())
      ensures old(Valid(State())) ==> Valid(State())
    {
      if root.Null? {
        return Err(LogicError);
      } else if stack == [] {
        return Err(LogicError);
      }
      var top := stack[|stack| - 1];
      var parent := Get(root, top);
      if parent.Some? && parent.value.Dict? {
        if !keyOpened {
          key := k;
          root := Put(root, top, Dict(parent.value.entries[key := Null]));
          keyOpened := true;
        } else {
          return Err(LogicError);
        }
      } else {
        return Err(LogicError);
      }
      r := Ok(KeyCtx);
      if old(Valid(State())) {
        KeyValid(old(State()), k);
      }
    }

    method Value(v: Node) returns (r: Result<Context, JsonError>)
      modifies this
      ensures r.Ok? <==> ValueStep(old(State()), v).Ok?
      ensures r.Ok? ==> r.value == Base && State() == ValueStep(old(State()), v).value
      ensures r.Err? ==> State() == old(State())
      ensures old(Valid(State())) ==> Valid(State())
    {
      if root.Null? {
        root := v;
        r := Ok(Base);
        if old(Valid(State())) {
          ValueValid(old(State()), v);
        }
        return;
      }
      if stack == [] {
        return Err(LogicError);
      }
      var top := stack[|stack| - 1];
      var current := Get(root, top);
      if current.Some? && current.value.Array? {
        root := Put(root, top, Array(current.value.items + [v]));
      } else if current.Some? && current.value.Dict? {
        if keyOpened {
          root := Put(root, top, Dict(current.value.entries[key := v]));
          key := "";
          keyOpened := false;
        } else {
          return Err(LogicError);
        }
      } else {
        return Err(LogicError);
      }
      r := Ok(Base);
      if old(Valid(State())) {
        ValueValid(old(State()), v);
      }
    }

    /** The body shared by `StartDict` and `StartArray`, which open `c`. */
    method Open(c: Node) returns (ok: bool)
      requires c == Dict(map[]) || c == Array([])
      modifies this
      ensures ok <==> OpenStep(old(State()), c).Ok?
      ensures ok ==> State() == OpenStep(old(State()), c).value
      ensures !ok ==> State() == old(State())
      ensures old(Valid(State())) ==> Valid(State())
    {
      if root.Null? {
        root := c;
        stack := stack + [[]];
        ok := true;
      } else if stack == [] {
        ok := false;
      } else {
        var top := stack[|stack| - 1];
        var parent := Get(root, top);
        if parent.Some? && parent.value.Array? {
          root := Put(root, top, Array(parent.value.items + [c]));
          stack := stack + [top + [Index(|parent.value.items|)]];
          ok := true;
        } else if parent.Some? && parent.value.Dict? && keyOpened {
          root := Put(root, top, Dict(parent.value.entries[key := c]));
          stack := stack + [top + [Field(key)]];
          key := "";
          keyOpened := false;
          ok := true;
        } else {
          ok := false;
        }
      }
      if ok && old(Valid(State())) {
        OpenValid(old(State()), c);
      }
    }

    method StartDict() returns (r: Result<Context, JsonError>)
      modifies this
      ensures r.Ok? <==> StartDictStep(old(State())).Ok?
      ensures r.Ok? ==> r.value == DictItemCtx && State() == StartDictStep(old(State())).value
      ensures r.Err? ==> State() == old(State())
      ensures old(Valid(State())) ==> Valid(State())
    {
      var ok := Open(Dict(map[]));
      r := if ok then Ok(DictItemCtx) else Err(LogicError);
    }

    method StartArray() returns (r: Result<Context, JsonError>)
      modifies this
      ensures r.Ok? <==> StartArrayStep(old(State())).Ok?
      ensures r.Ok? ==> r.value == ArrayItemCtx && State() == StartArrayStep(old(State())).value
      ensures r.Err? ==> State() == old(State())
      ensures old(Valid(State())) ==> Valid(State())
    {
      var ok := Open(Array([]));
      r := if ok then Ok(ArrayItemCtx) else Err(LogicError);
    }

    method EndDict() returns (r: Result<Context, JsonError>)
      modifies this
      ensures r.Ok? <==> EndDictStep(old(State())).Ok?
      ensures r.Ok? ==> r.value == Base && State() == EndDictStep(old(State())).value
      ensures r.Err? ==> State() == old(State())
      ensures old(Valid(State())) ==> Valid(State())
    {
      if stack != [] && Get(root, stack[|stack| - 1]).Some? && Get(root, stack[|stack| - 1]).value.Dict? && !keyOpened {
        stack := stack[..|stack| - 1];
        r := Ok(Base);
        if old(Valid(State())) {
          EndDictValid(old(State()));
        }
      } else {
        r := Err(LogicError);
      }
    }

    method EndArray() returns (r: Result<Context, JsonError>)
      modifies this
      ensures r.Ok? <==> EndArrayStep(old(State())).Ok?
      ensures r.Ok? ==> r.value == Base && State() == EndArrayStep(old(State())).value
      ensures r.Err? ==> State() == old(State())
      ensures old(Valid(State())) ==> Valid(State())
    {
      if stack != [] && Get(root, stack[|stack| - 1]).Some? && Get(root, stack[|stack| - 1]).value.Array? {
        stack := stack[..|stack| - 1];
        r := Ok(Base);
        if old(Valid(State())) {
          EndArrayValid(old(State()));
        }
      } else {
        r := Err(LogicError);
      }
    }

    method Build() returns (r: Result<Node, JsonError>)
      ensures r == BuildStep(State())
    {
      if root.Null? {
        r := Err(LogicError);
      } else if stack != [] {
        r := Err(LogicError);
      } else {
        r := Ok(root);
      }
    }
  }
}
