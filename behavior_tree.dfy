/**
 * The behaviour-tree engine (core/condition_nodes.py) and the token-list builder that turns a stored
 * tree into nodes (`load_behavior_from_db`, assets/classes/entities.py).
 *
 * A node runs against an abstract world state `S` (the entity and the map it is given). A condition
 * callback answers true or false and may update the state (the timer conditions record stamps); an
 * action callback only updates it.
 */
module BehaviorTree {
  import opened Common

  /** The four node kinds: the leaves wrap one callback, the inner nodes hold their children in order. */
  datatype Node<!S> =
    | ConditionNode(condition: S -> (bool, S))
    | ActionNode(action: S -> S)
    | SequenceNode(children: seq<Node<S>>)
    | SelectorNode(children: seq<Node<S>>)

  /** `run(entity, map)`: the node's answer and the state its callbacks leave behind. */
  function Run<S>(n: Node<S>, s: S): (r: (bool, S))
    ensures n.ConditionNode? ==> r == n.condition(s)
    ensures n.ActionNode? ==> r == (true, n.action(s))
    decreases n, 1
  {
    match n
    case ConditionNode(c) => c(s)
    case ActionNode(a) => (true, a(s))
    case SequenceNode(cs) => RunSequence(cs, s)
    case SelectorNode(cs) => RunSelector(cs, s)
  }

  /** `SequenceNode.run`: the children in order, stopping with false at the first one that fails. */
  function RunSequence<S>(cs: seq<Node<S>>, s: S): (bool, S)
    decreases cs, 0
  {
    if |cs| == 0 then (true, s)
    else
      var first := Run(cs[0], s);
      if !first.0 then (false, first.1) else RunSequence(cs[1..], first.1)
  }

  /** `SelectorNode.run`: the children in order, stopping with true at the first one that succeeds. */
  function RunSelector<S>(cs: seq<Node<S>>, s: S): (bool, S)
    decreases cs, 0
  {
    if |cs| == 0 then (false, s)
    else
      var first := Run(cs[0], s);
      if first.0 then (true, first.1) else RunSelector(cs[1..], first.1)
  }

  /**
   * A sequence over `a + b` runs `a` first; only when every child of `a` passes does it go on to run
   * `b` from the state `a` left, so a failure in `a` runs nothing of `b`.
   */
  lemma {:induction false} SequenceAppend<S>(a: seq<Node<S>>, b: seq<Node<S>>, s: S)
    ensures RunSequence(a + b, s) ==
      if RunSequence(a, s).0 then RunSequence(b, RunSequence(a, s).1) else RunSequence(a, s)
    decreases |a|
  {
    if |a| > 0 {
      assert (a + b)[0] == a[0];
      assert (a + b)[1..] == a[1..] + b;
      var first := Run(a[0], s);
      assert RunSequence(a, s) == if !first.0 then (false, first.1) else RunSequence(a[1..], first.1);
      assert RunSequence(a + b, s) == if !first.0 then (false, first.1) else RunSequence(a[1..] + b, first.1);
      if first.0 {
        SequenceAppend(a[1..], b, first.1);
      }
    } else {
      assert a + b == b;
    }
  }

  /**
   * A selector over `a + b` runs `a` first; only when every child of `a` fails does it go on to run
   * `b` from the state `a` left, so a success in `a` runs nothing of `b`.
   */
  lemma {:induction false} SelectorAppend<S>(a: seq<Node<S>>, b: seq<Node<S>>, s: S)
    ensures RunSelector(a + b, s) ==
      if RunSelector(a, s).0 then RunSelector(a, s) else RunSelector(b, RunSelector(a, s).1)
    decreases |a|
  {
    if |a| > 0 {
      assert (a + b)[0] == a[0];
      assert (a + b)[1..] == a[1..] + b;
      var first := Run(a[0], s);
      assert RunSelector(a, s) == if first.0 then (true, first.1) else RunSelector(a[1..], first.1);
      assert RunSelector(a + b, s) == if first.0 then (true, first.1) else RunSelector(a[1..] + b, first.1);
      if !first.0 {
        SelectorAppend(a[1..], b, first.1);
      }
    } else {
      assert a + b == b;
    }
  }

  /**
   * A failing sequence failed at one child: every child before index `k` passed, child `k` failed,
   * and the result is exactly what that failure left, no later child having run.
   */
  lemma {:induction false} SequenceFailsAtFirst<S>(cs: seq<Node<S>>, s: S) returns (k: nat)
    requires !RunSequence(cs, s).0
    ensures k < |cs|
    ensures RunSequence(cs[..k], s).0
    ensures RunSequence(cs, s) == (false, Run(cs[k], RunSequence(cs[..k], s).1).1)
    ensures !Run(cs[k], RunSequence(cs[..k], s).1).0
    decreases |cs|
  {
    var first := Run(cs[0], s);
    if !first.0 {
      k := 0;
      assert cs[..0] == [];
    } else {
      var k' := SequenceFailsAtFirst(cs[1..], first.1);
      k := k' + 1;
      assert cs[..k] == [cs[0]] + cs[1..][..k'];
      SequenceAppend([cs[0]], cs[1..][..k'], s);
      assert RunSequence([cs[0]], s) == (true, first.1) by {
        assert [cs[0]][1..] == [];
      }
      assert cs[1..][k'] == cs[k];
    }
  }

  /**
   * A succeeding selector succeeded at one child: every child before index `k` failed, child `k`
   * succeeded, and the result is exactly what that success left, no later child having run.
   */
  lemma {:induction false} SelectorSucceedsAtFirst<S>(cs: seq<Node<S>>, s: S) returns (k: nat)
    requires RunSelector(cs, s).0
    ensures k < |cs|
    ensures !RunSelector(cs[..k], s).0
    ensures RunSelector(cs, s) == (true, Run(cs[k], RunSelector(cs[..k], s).1).1)
    ensures Run(cs[k], RunSelector(cs[..k], s).1).0
    decreases |cs|
  {
    var first := Run(cs[0], s);
    if first.0 {
      k := 0;
      assert cs[..0] == [];
    } else {
      var k' := SelectorSucceedsAtFirst(cs[1..], first.1);
      k := k' + 1;
      assert cs[..k] == [cs[0]] + cs[1..][..k'];
      SelectorAppend([cs[0]], cs[1..][..k'], s);
      assert RunSelector([cs[0]], s) == (false, first.1) by {
        assert [cs[0]][1..] == [];
      }
      assert cs[1..][k'] == cs[k];
    }
  }

  /** A sequence nested first in a sequence behaves as if its children were spliced into the outer list. */
  lemma SequenceFlattens<S>(a: seq<Node<S>>, b: seq<Node<S>>, s: S)
    ensures RunSequence([SequenceNode(a)] + b, s) == RunSequence(a + b, s)
  {
    SequenceAppend([SequenceNode(a)], b, s);
    SequenceAppend(a, b, s);
    assert ([SequenceNode(a)] + b)[1..] == b;
    assert [SequenceNode(a)][1..] == [];
  }

  /** A selector nested first in a selector behaves as if its children were spliced into the outer list. */
  lemma SelectorFlattens<S>(a: seq<Node<S>>, b: seq<Node<S>>, s: S)
    ensures RunSelector([SelectorNode(a)] + b, s) == RunSelector(a + b, s)
  {
    SelectorAppend([SelectorNode(a)], b, s);
    SelectorAppend(a, b, s);
    assert ([SelectorNode(a)] + b)[1..] == b;
    assert [SelectorNode(a)][1..] == [];
  }

  /** `Condition(name, function)`: a named callback taking no arguments. */
  datatype Condition = Condition(name: string, condition: () -> bool)

  /** `Condition.check()`: the wrapped function's answer, called with no arguments. */
  function Check(c: Condition): (r: bool)
    ensures r == c.condition()
  {
    c.condition()
  }

  /**
   * The tree leaf over a condition's function called as `check()` calls it, ignoring the entity and
   * the map. The loader never builds this leaf: `load_behavior_from_db` wraps the registry's
   * functions directly in `ConditionNode`s, which call them as `condition(entity, map)`. Wrapped in
   * a `Condition` instead, `timer_2s` would get no entity and answer False. `SequenceOfChecks` and
   * `SelectorOfChecks` are about trees of such leaves, which the program itself does not build.
   */
  function CheckNode<S>(c: Condition): (n: Node<S>)
    ensures n.ConditionNode?
  {
    ConditionNode((t: S) => (c.condition(), t))
  }

  /** The leaves of a list of conditions, in order. */
  function CheckNodes<S>(cs: seq<Condition>): (ns: seq<Node<S>>)
    ensures |ns| == |cs|
    ensures forall i :: 0 <= i < |cs| ==> ns[i] == CheckNode(cs[i])
  {
    seq(|cs|, i requires 0 <= i < |cs| => CheckNode(cs[i]))
  }

  /** A sequence of such leaves passes exactly when every condition checks true, and changes nothing. */
  lemma {:induction false} SequenceOfChecks<S>(cs: seq<Condition>, s: S)
    ensures RunSequence(CheckNodes<S>(cs), s) == ((forall i :: 0 <= i < |cs| ==> Check(cs[i])), s)
    decreases |cs|
  {
    if |cs| > 0 {
      assert CheckNodes<S>(cs)[1..] == CheckNodes<S>(cs[1..]);
      SequenceOfChecks(cs[1..], s);
      assert forall i :: 1 <= i < |cs| ==> cs[1..][i - 1] == cs[i];
    }
  }

  /** A selector of such leaves passes exactly when some condition checks true, and changes nothing. */
  lemma {:induction false} SelectorOfChecks<S>(cs: seq<Condition>, s: S)
    ensures RunSelector(CheckNodes<S>(cs), s) == ((exists i :: 0 <= i < |cs| && Check(cs[i])), s)
    decreases |cs|
  {
    if |cs| > 0 {
      assert CheckNodes<S>(cs)[1..] == CheckNodes<S>(cs[1..]);
      SelectorOfChecks(cs[1..], s);
      assert forall i :: 1 <= i < |cs| ==> cs[1..][i - 1] == cs[i];
      if !Check(cs[0]) && exists i :: 0 <= i < |cs| && Check(cs[i]) {
        var i :| 0 <= i < |cs| && Check(cs[i]);
        assert cs[1..][i - 1] == cs[i];
      }
    }
  }

  // ---------------------------------------------------------------------------------------------
  // The builder

  /** One `[key, value]` pair of the stored list. */
  datatype Token = Token(key: string, value: string)

  /** The two structure kinds the builder pushes a frame for. */
  datatype Kind = Sequence | Selector

  /** One open structure: its kind and the children it took over at its `block_start`. */
  datatype Frame<!S> = Frame(kind: Kind, pending: seq<Node<S>>)

  /** The builder's two variables: the open structures (top last) and the sibling buffer. */
  datatype Builder<!S> = Builder(stack: seq<Frame<S>>, current: seq<Node<S>>)

  /** Why building stopped: ValueError for an unknown name or a malformed tree, IndexError for an empty stack. */
  datatype Failure = UnknownCondition(name: string) | UnknownAction(name: string) | NotOneRoot | IndexError

  /** The builder after some tokens: still going, or stopped by an exception. */
  datatype Progress<!S> = Going(b: Builder<S>) | Stopped(why: Failure)

  /** The inner node a closing frame builds. */
  function Close<S>(kind: Kind, children: seq<Node<S>>): Node<S> {
    match kind
    case Sequence => SequenceNode(children)
    case Selector => SelectorNode(children)
  }

  /** One pass of the loop body over a token. */
  function Step<S>(b: Builder<S>, t: Token, conditions: map<string, S -> (bool, S)>,
                   actions: map<string, S -> S>): Progress<S>
  {
    if t.key == "structure" then
      if t.value == "Sequence" then Going(b.(stack := b.stack + [Frame(Sequence, [])]))
      else if t.value == "Selector" then Going(b.(stack := b.stack + [Frame(Selector, [])]))
      else Going(b)
    else if t.key == "condition" then
      if t.value in conditions then Going(b.(current := b.current + [ConditionNode(conditions[t.value])]))
      else Stopped(UnknownCondition(t.value))
    else if t.key == "action" then
      if t.value in actions then Going(b.(current := b.current + [ActionNode(actions[t.value])]))
      else Stopped(UnknownAction(t.value))
    else if t.key == "block_start" then
      if |b.stack| == 0 then Stopped(IndexError)
      else
        var top := b.stack[|b.stack| - 1];
        Going(Builder(b.stack[..|b.stack| - 1] + [top.(pending := b.current)], []))
    else if t.key == "block_end" then
      if |b.stack| == 0 then Stopped(IndexError)
      else
        var top := b.stack[|b.stack| - 1];
        Going(Builder(b.stack[..|b.stack| - 1], [Close(top.kind, top.pending + b.current)]))
    else Going(b)
  }

  /** The loop over the remaining tokens from a builder state; an exception ends it. */
  function Fold<S>(b: Builder<S>, ts: seq<Token>, conditions: map<string, S -> (bool, S)>,
                   actions: map<string, S -> S>): Progress<S>
    decreases |ts|
  {
    if |ts| == 0 then Going(b)
    else
      match Step(b, ts[0], conditions, actions)
      case Going(b') => Fold(b', ts[1..], conditions, actions)
      case Stopped(why) => Stopped(why)
  }

  /** What loading a tree gives: no tree for a missing row, the root node, or the exception raised. */
  datatype Loaded<!S> = NoTree | Built(root: Node<S>) | Raised(why: Failure)

  /** The answer once the loop is over: exactly one node left in the buffer is the root. */
  function Finish<S>(p: Progress<S>): (r: Loaded<S>)
    ensures r.Built? <==> p.Going? && |p.b.current| == 1
    ensures r.Built? ==> r.root == p.b.current[0]
    ensures p.Stopped? ==> r == Raised(p.why)
    ensures p.Going? && |p.b.current| != 1 ==> r == Raised(NotOneRoot)
  {
    match p
    case Stopped(why) => Raised(why)
    case Going(b) => if |b.current| == 1 then Built(b.current[0]) else Raised(NotOneRoot)
  }

  /** The builder started with an empty stack and an empty buffer. */
  function Start<S>(): Builder<S> {
    Builder([], [])
  }

  /**
   * `load_behavior_from_db` from the fetched row on: no row gives no tree; otherwise the tokens are
   * folded in order and the single node left is the root (the deep copy is a no-op on values).
   */
  method LoadBehavior<S>(row: Option<seq<Token>>, conditions: map<string, S -> (bool, S)>,
                         actions: map<string, S -> S>) returns (r: Loaded<S>)
    ensures row.None? ==> r == NoTree
    ensures row.Some? ==> r == Finish(Fold(Start(), row.value, conditions, actions))
  {
    if row.None? {
      return NoTree;
    }
    var structure := row.value;
    var stack: seq<Frame<S>> := [];
    var currentChildren: seq<Node<S>> := [];
    var i := 0;
    while i < |structure|
      invariant 0 <= i <= |structure|
      invariant Fold(Start(), structure, conditions, actions) ==
        Fold(Builder(stack, currentChildren), structure[i..], conditions, actions)
    {
      var entry := structure[i];
      assert structure[i..][0] == entry && structure[i..][1..] == structure[i + 1..];
      if entry.key == "structure" {
        if entry.value == "Sequence" {
          stack := stack + [Frame(Sequence, [])];
        } else if entry.value == "Selector" {
          stack := stack + [Frame(Selector, [])];
        }
      } else if entry.key == "condition" {
        if entry.value in conditions {
          currentChildren := currentChildren + [ConditionNode(conditions[entry.value])];
        } else {
          return Raised(UnknownCondition(entry.value));
        }
      } else if entry.key == "action" {
        if entry.value in actions {
          currentChildren := currentChildren + [ActionNode(actions[entry.value])];
        } else {
          return Raised(UnknownAction(entry.value));
        }
      } else if entry.key == "block_start" {
        if |stack| == 0 {
          return Raised(IndexError);
        }
        stack := stack[..|stack| - 1] + [stack[|stack| - 1].(pending := currentChildren)];
        currentChildren := [];
      } else if entry.key == "block_end" {
        if |stack| == 0 {
          return Raised(IndexError);
        }
        var top := stack[|stack| - 1];
        stack := stack[..|stack| - 1];
        var children := top.pending + currentChildren;
        currentChildren := [Close(top.kind, children)];
      }
      i := i + 1;
    }
    if |currentChildren| != 1 {
      return Raised(NotOneRoot);
    }
    r := Built(currentChildren[0]);
  }

  /** Folding `a + c` folds `a` and then, unless that raised, folds `c` from where `a` left off. */
  lemma {:induction false} FoldAppend<S>(b: Builder<S>, a: seq<Token>, c: seq<Token>,
                                         conditions: map<string, S -> (bool, S)>, actions: map<string, S -> S>)
    ensures Fold(b, a + c, conditions, actions) ==
      if Fold(b, a, conditions, actions).Going? then Fold(Fold(b, a, conditions, actions).b, c, conditions, actions)
      else Fold(b, a, conditions, actions)
    decreases |a|
  {
    if |a| == 0 {
      assert a + c == c;
    } else {
      assert (a + c)[0] == a[0];
      assert (a + c)[1..] == a[1..] + c;
      match Step(b, a[0], conditions, actions)
      case Going(b') => FoldAppend(b', a[1..], c, conditions, actions);
      case Stopped(_) =>
    }
  }

  /** A token the loop does not act on (an unknown key, or a structure other than Sequence/Selector) changes nothing. */
  lemma IgnoredToken<S>(b: Builder<S>, t: Token, rest: seq<Token>,
                        conditions: map<string, S -> (bool, S)>, actions: map<string, S -> S>)
    requires (t.key == "structure" && t.value != "Sequence" && t.value != "Selector") ||
      t.key !in {"structure", "condition", "action", "block_start", "block_end"}
    ensures Fold(b, [t] + rest, conditions, actions) == Fold(b, rest, conditions, actions)
  {
    assert ([t] + rest)[0] == t && ([t] + rest)[1..] == rest;
  }

  /**
   * An unknown condition or action name raises ValueError naming it, whatever came before (as long
   * as nothing raised earlier) and whatever comes after.
   */
  lemma UnknownNameRaises<S>(pre: seq<Token>, t: Token, post: seq<Token>,
                             conditions: map<string, S -> (bool, S)>, actions: map<string, S -> S>)
    requires Fold(Start(), pre, conditions, actions).Going?
    requires (t.key == "condition" && t.value !in conditions) || (t.key == "action" && t.value !in actions)
    ensures Finish(Fold(Start(), pre + [t] + post, conditions, actions)) ==
      Raised(if t.key == "condition" then UnknownCondition(t.value) else UnknownAction(t.value))
  {
    FoldAppend(Start(), pre, [t] + post, conditions, actions);
    assert pre + [t] + post == pre + ([t] + post);
    assert ([t] + post)[0] == t;
  }

  /** `block_start` or `block_end` with no open structure raises IndexError. */
  lemma EmptyStackRaises<S>(pre: seq<Token>, t: Token, post: seq<Token>,
                            conditions: map<string, S -> (bool, S)>, actions: map<string, S -> S>)
    requires Fold(Start(), pre, conditions, actions).Going?
    requires |Fold(Start(), pre, conditions, actions).b.stack| == 0
    requires t.key == "block_start" || t.key == "block_end"
    ensures Finish(Fold(Start(), pre + [t] + post, conditions, actions)) == Raised(IndexError)
  {
    FoldAppend(Start(), pre, [t] + post, conditions, actions);
    assert pre + [t] + post == pre + ([t] + post);
    assert ([t] + post)[0] == t;
  }

  /**
   * `block_start` replaces the top frame's pending children by the buffer: a second `block_start` on
   * the same frame drops what the first one stored and keeps only the siblings collected in between.
   */
  lemma SecondBlockStartDrops<S>(stack: seq<Frame<S>>, f: Frame<S>, first: seq<Node<S>>, between: seq<Tree>,
                                 conditions: map<string, S -> (bool, S)>, actions: map<string, S -> S>)
    requires forall i :: 0 <= i < |between| ==> !between[i].Structure? && Known(between[i], conditions, actions)
    ensures Fold(Builder(stack + [f], first),
                 [Token("block_start", "{")] + SerializeAll(between) + [Token("block_start", "{")], conditions, actions) ==
      Going(Builder(stack + [f.(pending := InstantiateAll(between, conditions, actions))], []))
  {
    var bs := Token("block_start", "{");
    var after := Builder(stack + [f.(pending := first)], []);
    assert Fold(Builder(stack + [f], first), [bs], conditions, actions) == Going(after) by {
      assert (stack + [f])[..|stack + [f]| - 1] == stack;
    }
    FoldLeaves(stack + [f.(pending := first)], [], between, conditions, actions);
    assert [] + InstantiateAll(between, conditions, actions) == InstantiateAll(between, conditions, actions);
    var mid := Builder(stack + [f.(pending := first)], InstantiateAll(between, conditions, actions));
    assert Fold(mid, [bs], conditions, actions) ==
      Going(Builder(stack + [f.(pending := InstantiateAll(between, conditions, actions))], [])) by {
      assert (stack + [f.(pending := first)])[..|stack| + 1 - 1] == stack;
    }
    FoldAppend(Builder(stack + [f], first), [bs], SerializeAll(between) + [bs], conditions, actions);
    FoldAppend(after, SerializeAll(between), [bs], conditions, actions);
    assert [bs] + SerializeAll(between) + [bs] == [bs] + (SerializeAll(between) + [bs]);
  }

  // ---------------------------------------------------------------------------------------------
  // Stored trees and their token lists

  /** A tree written with callback names, as the editor stores it. */
  datatype Tree = CondRef(name: string) | ActRef(name: string) | Structure(kind: Kind, children: seq<Tree>)

  /** The name the stored list uses for a structure kind. */
  function KindName(k: Kind): string {
    match k
    case Sequence => "Sequence"
    case Selector => "Selector"
  }

  /** The token list of a tree: a structure is its kind, `block_start`, its children's lists, `block_end`. */
  function Serialize(t: Tree): seq<Token>
    decreases t, 1
  {
    match t
    case CondRef(n) => [Token("condition", n)]
    case ActRef(n) => [Token("action", n)]
    case Structure(k, cs) =>
      [Token("structure", KindName(k)), Token("block_start", "{")] + SerializeAll(cs) + [Token("block_end", "}")]
  }

  /** The children's token lists one after the other. */
  function SerializeAll(ts: seq<Tree>): seq<Token>
    decreases ts, 0
  {
    if |ts| == 0 then [] else Serialize(ts[0]) + SerializeAll(ts[1..])
  }

  /** Every name in the tree is in its registry. */
  predicate Known<S>(t: Tree, conditions: map<string, S -> (bool, S)>, actions: map<string, S -> S>)
    decreases t
  {
    match t
    case CondRef(n) => n in conditions
    case ActRef(n) => n in actions
    case Structure(_, cs) => forall i :: 0 <= i < |cs| ==> Known(cs[i], conditions, actions)
  }

  /** Only a first child may be a structure, so that no structure absorbs an earlier sibling. */
  predicate Canonical(t: Tree)
    decreases t
  {
    match t
    case Structure(_, cs) =>
      forall i :: 0 <= i < |cs| ==> (i > 0 ==> !cs[i].Structure?) && Canonical(cs[i])
    case _ => true
  }

  /** The nodes a tree stands for, with each name looked up in its registry. */
  function Instantiate<S>(t: Tree, conditions: map<string, S -> (bool, S)>, actions: map<string, S -> S>): Node<S>
    requires Known(t, conditions, actions)
    decreases t, 1
  {
    match t
    case CondRef(n) => ConditionNode(conditions[n])
    case ActRef(n) => ActionNode(actions[n])
    case Structure(k, cs) => Close(k, InstantiateAll(cs, conditions, actions))
  }

  /** The nodes of a list of trees. */
  function InstantiateAll<S>(ts: seq<Tree>, conditions: map<string, S -> (bool, S)>, actions: map<string, S -> S>): (ns: seq<Node<S>>)
    requires forall i :: 0 <= i < |ts| ==> Known(ts[i], conditions, actions)
    ensures |ns| == |ts|
    decreases ts, 0
  {
    if |ts| == 0 then [] else [Instantiate(ts[0], conditions, actions)] + InstantiateAll(ts[1..], conditions, actions)
  }

  /** The buffer after one tree's tokens: a leaf is appended; a structure takes the whole buffer as its first children. */
  function Placed<S>(current: seq<Node<S>>, t: Tree, conditions: map<string, S -> (bool, S)>, actions: map<string, S -> S>): seq<Node<S>>
    requires Known(t, conditions, actions)
  {
    if t.Structure? then [Close(t.kind, current + InstantiateAll(t.children, conditions, actions))]
    else current + [Instantiate(t, conditions, actions)]
  }

  /**
   * Folding a canonical tree's tokens leaves the stack as it was and places the tree in the buffer;
   * a structure absorbs every sibling already in the buffer as the head of its children.
   */
  lemma {:induction false} FoldTree<S>(stack: seq<Frame<S>>, current: seq<Node<S>>, t: Tree,
                                       conditions: map<string, S -> (bool, S)>, actions: map<string, S -> S>)
    requires Known(t, conditions, actions) && Canonical(t)
    ensures Fold(Builder(stack, current), Serialize(t), conditions, actions) ==
      Going(Builder(stack, Placed(current, t, conditions, actions)))
    decreases t, 1
  {
    match t
    case CondRef(n) =>
    case ActRef(n) =>
    case Structure(k, cs) =>
      var open := [Token("structure", KindName(k)), Token("block_start", "{")];
      var close := [Token("block_end", "}")];
      var inner := stack + [Frame(k, current)];
      FoldOpen(stack, current, k, conditions, actions);
      FoldChildren(inner, cs, conditions, actions);
      var full := InstantiateAll(cs, conditions, actions);
      FoldClose(stack, Frame(k, current), full, conditions, actions);
      FoldAppend(Builder(stack, current), open, SerializeAll(cs) + close, conditions, actions);
      FoldAppend(Builder(inner, []), SerializeAll(cs), close, conditions, actions);
      assert Serialize(t) == open + (SerializeAll(cs) + close);
  }

  /** A structure's opening tokens push its frame holding the buffer as pending children, and empty the buffer. */
  lemma FoldOpen<S>(stack: seq<Frame<S>>, current: seq<Node<S>>, k: Kind,
                    conditions: map<string, S -> (bool, S)>, actions: map<string, S -> S>)
    ensures Fold(Builder(stack, current), [Token("structure", KindName(k)), Token("block_start", "{")], conditions, actions) ==
      Going(Builder(stack + [Frame(k, current)], []))
  {
    var open := [Token("structure", KindName(k)), Token("block_start", "{")];
    var pushed := Builder(stack + [Frame(k, [])], current);
    var inner := Builder(stack + [Frame(k, current)], []);
    assert Step(Builder(stack, current), open[0], conditions, actions) == Going(pushed) by {
      match k
      case Sequence =>
      case Selector =>
    }
    assert (stack + [Frame(k, [])])[..|stack| + 1 - 1] == stack;
    assert Step(pushed, open[1], conditions, actions) == Going(inner);
    assert open[1..][1..] == [];
    assert Fold(pushed, open[1..], conditions, actions) == Fold(inner, [], conditions, actions);
  }

  /** `block_end` pops the top frame and leaves one node: the frame's kind over its pending children and the buffer. */
  lemma FoldClose<S>(stack: seq<Frame<S>>, f: Frame<S>, current: seq<Node<S>>,
                     conditions: map<string, S -> (bool, S)>, actions: map<string, S -> S>)
    ensures Fold(Builder(stack + [f], current), [Token("block_end", "}")], conditions, actions) ==
      Going(Builder(stack, [Close(f.kind, f.pending + current)]))
  {
    assert (stack + [f])[..|stack| + 1 - 1] == stack;
  }

  /** Folding a canonical child list from an empty buffer leaves the stack as it was and the children's nodes in the buffer. */
  lemma {:induction false} FoldChildren<S>(stack: seq<Frame<S>>, ts: seq<Tree>,
                                           conditions: map<string, S -> (bool, S)>, actions: map<string, S -> S>)
    requires forall i :: 0 <= i < |ts| ==> (i > 0 ==> !ts[i].Structure?) && Canonical(ts[i]) && Known(ts[i], conditions, actions)
    ensures Fold(Builder(stack, []), SerializeAll(ts), conditions, actions) ==
      Going(Builder(stack, InstantiateAll(ts, conditions, actions)))
    decreases ts, 0
  {
    if |ts| > 0 {
      FoldTree(stack, [], ts[0], conditions, actions);
      var head := Instantiate(ts[0], conditions, actions);
      assert Placed([], ts[0], conditions, actions) == [head] by {
        if ts[0].Structure? {
          assert [] + InstantiateAll(ts[0].children, conditions, actions) == InstantiateAll(ts[0].children, conditions, actions);
        }
      }
      FoldLeaves(stack, [head], ts[1..], conditions, actions);
      FoldAppend(Builder(stack, []), Serialize(ts[0]), SerializeAll(ts[1..]), conditions, actions);
    }
  }

  /** Folding a list of known leaves appends their nodes to the buffer, in order. */
  lemma {:induction false} FoldLeaves<S>(stack: seq<Frame<S>>, current: seq<Node<S>>, ts: seq<Tree>,
                                         conditions: map<string, S -> (bool, S)>, actions: map<string, S -> S>)
    requires forall i :: 0 <= i < |ts| ==> !ts[i].Structure? && Known(ts[i], conditions, actions)
    ensures Fold(Builder(stack, current), SerializeAll(ts), conditions, actions) ==
      Going(Builder(stack, current + InstantiateAll(ts, conditions, actions)))
    decreases |ts|
  {
    if |ts| == 0 {
      assert current + [] == current;
    } else {
      var head := Instantiate(ts[0], conditions, actions);
      assert Fold(Builder(stack, current), Serialize(ts[0]), conditions, actions) ==
        Going(Builder(stack, current + [head]));
      FoldLeaves(stack, current + [head], ts[1..], conditions, actions);
      FoldAppend(Builder(stack, current), Serialize(ts[0]), SerializeAll(ts[1..]), conditions, actions);
      assert current + [head] + InstantiateAll(ts[1..], conditions, actions) ==
        current + InstantiateAll(ts, conditions, actions);
    }
  }

  /** Round trip: the token list of a canonical tree with known names loads back as that tree's nodes. */
  lemma RoundTrip<S>(t: Tree, conditions: map<string, S -> (bool, S)>, actions: map<string, S -> S>)
    requires Known(t, conditions, actions) && Canonical(t)
    ensures Finish(Fold(Start(), Serialize(t), conditions, actions)) == Built(Instantiate(t, conditions, actions))
  {
    FoldTree([], [], t, conditions, actions);
    if t.Structure? {
      assert [] + InstantiateAll(t.children, conditions, actions) == InstantiateAll(t.children, conditions, actions);
    }
  }

  /**
   * The block rule at work: a condition written before a sequence's tokens becomes that sequence's
   * first child, so `[condition a, structure Sequence, block_start, action b, block_end]` loads as
   * one sequence of both leaves.
   */
  lemma StructureAbsorbsSibling<S>(a: string, b: string,
                                   conditions: map<string, S -> (bool, S)>, actions: map<string, S -> S>)
    requires a in conditions && b in actions
    ensures Finish(Fold(Start(), [Token("condition", a)] + Serialize(Structure(Sequence, [ActRef(b)])), conditions, actions)) ==
      Built(SequenceNode([ConditionNode(conditions[a]), ActionNode(actions[b])]))
  {
    var leaf := [ConditionNode(conditions[a])];
    assert Fold(Start(), [Token("condition", a)], conditions, actions) == Going(Builder([], leaf));
    FoldTree([], leaf, Structure(Sequence, [ActRef(b)]), conditions, actions);
    FoldAppend(Start(), [Token("condition", a)], Serialize(Structure(Sequence, [ActRef(b)])), conditions, actions);
    assert InstantiateAll([ActRef(b)], conditions, actions) == [ActionNode(actions[b])];
  }
}
