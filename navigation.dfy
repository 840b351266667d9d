/**
 * The navigator: the `while (providedCid)` loop of `listOption` (main.js).
 *
 * Its whole memory is two strings: `providedCid`, the node being shown, and
 * `lastPath`, ONE remembered CID (not a stack). Each round lists the current
 * node, classifies it, offers the menu for its kind and reacts to the
 * operator's choice. The store's `ls` and the operator's answers are inputs.
 */
module Navigation {
  import opened Wrappers
  import opened Listing
  import opened Actions

  /** The loop's variables. */
  datatype NavState = NavState(providedCid: Cid, lastPath: Cid)

  /** One answer of the operator: the menu value, the child picked on Enter, the path typed on Save. */
  datatype Answer = Answer(action: Action, child: nat, savePath: string)

  /** Why a run stopped, or that it is still waiting for the operator. */
  datatype End =
    | ExitChosen        // "exit": back to the main menu
    | BackAtTop         // "back" while lastPath === providedCid
    | NoCid             // the loop guard: providedCid is the empty string
    | StoreFailed       // `ls` threw; the rejection leaves listOption
    | AwaitingOperator  // the answers given so far are used up; the loop is still running

  /** The final state, the store effects performed in order, and why the run ended. */
  datatype Outcome = Outcome(final: NavState, effects: seq<Effect>, end: End)

  /** The result of one round of the loop. */
  datatype Transition = Continue(next: NavState, effects: seq<Effect>) | Stop(why: End)

  /** `listOption` starts with `lastPath` equal to the root. */
  function Start(root: Cid): NavState {
    NavState(root, root)
  }

  /**
   * What a list prompt can return for this listing: a value of the menu
   * offered for its kind, and on Enter one of the listed children.
   */
  predicate Allowed(files: seq<Entry>, a: Answer) {
    a.action in Values(NavigatorMenu(CidType(files))) &&
    (a.action == Enter ==> a.child < |files|)
  }

  /**
   * One round after `files` was listed for `s.providedCid`. Exit stops; Back
   * stops exactly when the remembered CID is the current one, and otherwise
   * moves to it; Enter moves to one of the listed children and remembers the
   * node it left; Save and Show act on the current node and leave the state as it is.
   */
  function Step(s: NavState, files: seq<Entry>, a: Answer): (t: Transition)
    requires Allowed(files, a)
    ensures t.Stop? <==> a.action == Exit || (a.action == Back && s.lastPath == s.providedCid)
    ensures t.Stop? ==> t.why == (if a.action == Exit then ExitChosen else BackAtTop)
    ensures a.action == Enter ==>
      CidType(files) == Dir && t.next.providedCid in Cids(files) && t.next.lastPath == s.providedCid
    ensures a.action == Back && t.Continue? ==> t.next == Start(s.lastPath)
    ensures a.action == Save ==> t == Continue(s, [SaveToLocal(s.providedCid, a.savePath)])
    ensures a.action == Show ==> CidType(files) == File && t == Continue(s, [ShowContents(s.providedCid)])
    ensures a.action in {Enter, Back} && t.Continue? ==> t.effects == []
  {
    match a.action
    case Enter =>
      assert Cids(files)[a.child] == files[a.child].cid;
      Continue(NavState(files[a.child].cid, s.providedCid), [])
    case Back =>
      if s.lastPath == s.providedCid then Stop(BackAtTop) else Continue(NavState(s.lastPath, s.lastPath), [])
    case Exit => Stop(ExitChosen)
    case Save => Continue(s, [SaveToLocal(s.providedCid, a.savePath)])
    case Show => Continue(s, [ShowContents(s.providedCid)])
  }

  /** Every answer the run reaches is one the prompts could have returned. */
  predicate Admissible(s: NavState, ls: Cid -> Option<seq<Entry>>, answers: seq<Answer>)
    decreases |answers|
  {
    s.providedCid == "" || ls(s.providedCid).None? || answers == [] ||
    (Allowed(ls(s.providedCid).value, answers[0]) &&
     var t := Step(s, ls(s.providedCid).value, answers[0]);
     t.Continue? ==> Admissible(t.next, ls, answers[1..]))
  }

  /** `o` with `es` performed before its own effects. */
  function After(es: seq<Effect>, o: Outcome): Outcome {
    o.(effects := es + o.effects)
  }

  /** The loop from state `s`, as a function of the store's listings and the operator's answers. */
  function Run(s: NavState, ls: Cid -> Option<seq<Entry>>, answers: seq<Answer>): Outcome
    requires Admissible(s, ls, answers)
    decreases |answers|
  {
    if s.providedCid == "" then Outcome(s, [], NoCid)
    else match ls(s.providedCid)
      case None => Outcome(s, [], StoreFailed)
      case Some(files) =>
        if answers == [] then Outcome(s, [], AwaitingOperator)
        else match Step(s, files, answers[0])
          case Stop(why) => Outcome(s, [], why)
          case Continue(next, es) => After(es, Run(next, ls, answers[1..]))
  }

  /** One round of `Run`, answer by answer, in terms of the loop's two variables. */
  lemma RunRound(s: NavState, ls: Cid -> Option<seq<Entry>>, a: Answer, rest: seq<Answer>)
    requires s.providedCid != "" && ls(s.providedCid).Some?
    requires Admissible(s, ls, [a] + rest)
    ensures a.action == Exit ==> Run(s, ls, [a] + rest) == Outcome(s, [], ExitChosen)
    ensures a.action == Back && s.lastPath == s.providedCid ==> Run(s, ls, [a] + rest) == Outcome(s, [], BackAtTop)
    ensures a.action == Back && s.lastPath != s.providedCid ==>
      Admissible(Start(s.lastPath), ls, rest) && Run(s, ls, [a] + rest) == Run(Start(s.lastPath), ls, rest)
    ensures a.action == Enter ==>
      var files := ls(s.providedCid).value;
      a.child < |files| &&
      Admissible(NavState(files[a.child].cid, s.providedCid), ls, rest) &&
      Run(s, ls, [a] + rest) == Run(NavState(files[a.child].cid, s.providedCid), ls, rest)
    ensures a.action == Save ==>
      Admissible(s, ls, rest) && Run(s, ls, [a] + rest) == After([SaveToLocal(s.providedCid, a.savePath)], Run(s, ls, rest))
    ensures a.action == Show ==>
      Admissible(s, ls, rest) && Run(s, ls, [a] + rest) == After([ShowContents(s.providedCid)], Run(s, ls, rest))
  {
    assert ([a] + rest)[1..] == rest;
    var t := Step(s, ls(s.providedCid).value, a);
    if t.Continue? && (a.action == Enter || a.action == Back) {
      assert After([], Run(t.next, ls, rest)) == Run(t.next, ls, rest);
    }
  }

  /** Effects performed in two batches are the effects of the concatenated batch. */
  lemma AfterAfter(e1: seq<Effect>, e2: seq<Effect>, o: Outcome)
    ensures After(e1, After(e2, o)) == After(e1 + e2, o)
  {
    assert e1 + (e2 + o.effects) == (e1 + e2) + o.effects;
  }

  /**
   * The navigation loop of `listOption`, started on the root CID the
   * operator typed. It does exactly what `Run` says.
   */
  method ListOption(root: Cid, ls: Cid -> Option<seq<Entry>>, answers: seq<Answer>) returns (o: Outcome)
    requires Admissible(Start(root), ls, answers)
    ensures o == Run(Start(root), ls, answers)
  {
    ghost var whole := Run(Start(root), ls, answers);
    var providedCid := root;
    var lastPath := providedCid;
    var effects: seq<Effect> := [];
    var i := 0;
    while providedCid != ""
      invariant 0 <= i <= |answers|
      invariant Admissible(NavState(providedCid, lastPath), ls, answers[i..])
      invariant whole == After(effects, Run(NavState(providedCid, lastPath), ls, answers[i..]))
      decreases |answers| - i
    {
      var listed := ls(providedCid);
      if listed.None? {
        return Outcome(NavState(providedCid, lastPath), effects, StoreFailed);
      }
      var files := listed.value;
      if i == |answers| {
        return Outcome(NavState(providedCid, lastPath), effects, AwaitingOperator);
      }
      ghost var s := NavState(providedCid, lastPath);
      var a := answers[i];
      assert answers[i..] == [a] + answers[i + 1..];
      RunRound(s, ls, a, answers[i + 1..]);
      i := i + 1;
      if a.action == Enter {
        lastPath := providedCid;
        providedCid := files[a.child].cid;
      } else if a.action == Back {
        if lastPath == providedCid {
          return Outcome(NavState(providedCid, lastPath), effects, BackAtTop);
        }
        providedCid := lastPath;
      } else if a.action == Exit {
        return Outcome(NavState(providedCid, lastPath), effects, ExitChosen);
      } else if a.action == Save {
        AfterAfter(effects, [SaveToLocal(providedCid, a.savePath)], Run(s, ls, answers[i..]));
        effects := effects + [SaveToLocal(providedCid, a.savePath)];
      } else {
        AfterAfter(effects, [ShowContents(providedCid)], Run(s, ls, answers[i..]));
        effects := effects + [ShowContents(providedCid)];
      }
    }
    return Outcome(NavState(providedCid, lastPath), effects, NoCid);
  }

  /**
   * The loop's invariant: the remembered CID is either the current node
   * itself or the node whose listing the current node was entered from.
   */
  predicate Remembered(s: NavState, ls: Cid -> Option<seq<Entry>>) {
    s.lastPath == s.providedCid ||
    (ls(s.lastPath).Some? && s.providedCid in Cids(ls(s.lastPath).value))
  }

  /** Every state a run reaches from a start state keeps the invariant. */
  lemma {:induction false} RunKeepsRemembered(s: NavState, ls: Cid -> Option<seq<Entry>>, answers: seq<Answer>)
    requires Admissible(s, ls, answers)
    requires Remembered(s, ls)
    ensures Remembered(Run(s, ls, answers).final, ls)
    decreases |answers|
  {
    if s.providedCid != "" && ls(s.providedCid).Some? && answers != [] {
      var files := ls(s.providedCid).value;
      var t := Step(s, files, answers[0]);
      if t.Continue? {
        assert Remembered(t.next, ls);
        RunKeepsRemembered(t.next, ls, answers[1..]);
      }
    }
  }

  /** Back on the root CID ends navigation at once (lastPath starts equal to the root). */
  lemma BackAtRootEnds(root: Cid, ls: Cid -> Option<seq<Entry>>, a: Answer, rest: seq<Answer>)
    requires a.action == Back
    ensures Admissible(Start(root), ls, [a] + rest)
    ensures Run(Start(root), ls, [a] + rest) ==
      Outcome(Start(root), [], if root == "" then NoCid else if ls(root).None? then StoreFailed else BackAtTop)
  {
  }

  /** Exit ends navigation from any node, whatever was visited before. */
  lemma ExitEnds(s: NavState, ls: Cid -> Option<seq<Entry>>, a: Answer, rest: seq<Answer>)
    requires s.providedCid != "" && ls(s.providedCid).Some?
    requires a.action == Exit
    ensures Admissible(s, ls, [a] + rest)
    ensures Run(s, ls, [a] + rest) == Outcome(s, [], ExitChosen)
  {
  }

  /**
   * Save and Show act on the current node and leave both variables as they
   * were: the loop lists the same CID again and carries on from there.
   */
  lemma SaveAndShowStay(s: NavState, ls: Cid -> Option<seq<Entry>>, a: Answer, rest: seq<Answer>)
    requires s.providedCid != "" && ls(s.providedCid).Some?
    requires a.action == Save || a.action == Show
    requires Allowed(ls(s.providedCid).value, a)
    requires Admissible(s, ls, rest)
    ensures Admissible(s, ls, [a] + rest)
    ensures Run(s, ls, [a] + rest) ==
      After([if a.action == Save then SaveToLocal(s.providedCid, a.savePath) else ShowContents(s.providedCid)],
            Run(s, ls, rest))
  {
    assert ([a] + rest)[1..] == rest;
  }

  /**
   * Only one level of history: two Backs in a row never leave the loop
   * running, from any state. Either the first Back stops, or it moves to the
   * remembered CID, which is then also the remembered one, and the second stops.
   */
  lemma BackTwiceEnds(s: NavState, ls: Cid -> Option<seq<Entry>>, b1: Answer, b2: Answer, rest: seq<Answer>)
    requires b1.action == Back && b2.action == Back
    ensures Admissible(s, ls, [b1, b2] + rest)
    ensures var o := Run(s, ls, [b1, b2] + rest);
      o.effects == [] && (o.end == BackAtTop || o.end == NoCid || o.end == StoreFailed)
  {
    assert ([b1, b2] + rest)[1..] == [b2] + rest;
    BackAtRootEnds(s.lastPath, ls, b2, rest);
  }

  /**
   * Two levels down, Back, Back stops at the middle node: the root the
   * operator typed cannot be reached again.
   */
  lemma GrandparentUnreachable(root: Cid, ls: Cid -> Option<seq<Entry>>, e1: Answer, e2: Answer, b1: Answer, b2: Answer)
    requires root != "" && ls(root).Some? && CidType(ls(root).value) == Dir
    requires e1.action == Enter && e1.child < |ls(root).value|
    requires var mid := ls(root).value[e1.child].cid;
      mid != "" && mid != root && ls(mid).Some? && CidType(ls(mid).value) == Dir &&
      e2.action == Enter && e2.child < |ls(mid).value| &&
      ls(mid).value[e2.child].cid != "" && ls(mid).value[e2.child].cid != mid &&
      ls(ls(mid).value[e2.child].cid).Some?
    requires b1.action == Back && b2.action == Back
    ensures Admissible(Start(root), ls, [e1, e2, b1, b2])
    ensures Run(Start(root), ls, [e1, e2, b1, b2]) == Outcome(Start(ls(root).value[e1.child].cid), [], BackAtTop)
  {
    var mid := ls(root).value[e1.child].cid;
    var s1 := NavState(mid, root);
    BackAtRootEnds(mid, ls, b2, []);
    EnterThenBackReturns(s1, ls, e2, b1, [b2]);
    assert [e2, b1] + [b2] == [e2, b1, b2];
    EnterMovesToChild(Start(root), ls, e1, [e2, b1, b2]);
    assert [e1] + [e2, b1, b2] == [e1, e2, b1, b2];
  }

  /**
   * Enter on a listed child followed by Back returns to the node left, now
   * remembered as itself: from there the run goes on as from a fresh start.
   */
  lemma EnterThenBackReturns(s: NavState, ls: Cid -> Option<seq<Entry>>, enter: Answer, back: Answer, rest: seq<Answer>)
    requires s.providedCid != "" && ls(s.providedCid).Some? && CidType(ls(s.providedCid).value) == Dir
    requires enter.action == Enter && enter.child < |ls(s.providedCid).value|
    requires var c := ls(s.providedCid).value[enter.child].cid; c != "" && c != s.providedCid && ls(c).Some?
    requires back.action == Back
    requires Admissible(Start(s.providedCid), ls, rest)
    ensures Admissible(s, ls, [enter, back] + rest)
    ensures Run(s, ls, [enter, back] + rest) == Run(Start(s.providedCid), ls, rest)
  {
    var files := ls(s.providedCid).value;
    var child := NavState(files[enter.child].cid, s.providedCid);
    BackToRemembered(child, ls, back, rest);
    EnterMovesToChild(s, ls, enter, [back] + rest);
    assert [enter, back] + rest == [enter] + ([back] + rest);
  }

  /** Enter moves to the chosen child and remembers the node it left. */
  lemma EnterMovesToChild(s: NavState, ls: Cid -> Option<seq<Entry>>, enter: Answer, rest: seq<Answer>)
    requires s.providedCid != "" && ls(s.providedCid).Some? && CidType(ls(s.providedCid).value) == Dir
    requires enter.action == Enter && enter.child < |ls(s.providedCid).value|
    requires Admissible(NavState(ls(s.providedCid).value[enter.child].cid, s.providedCid), ls, rest)
    ensures Admissible(s, ls, [enter] + rest)
    ensures Run(s, ls, [enter] + rest) == Run(NavState(ls(s.providedCid).value[enter.child].cid, s.providedCid), ls, rest)
  {
    assert ([enter] + rest)[1..] == rest;
  }

  /** Back away from the remembered CID moves to it; from there the run goes on as from a fresh start. */
  lemma BackToRemembered(s: NavState, ls: Cid -> Option<seq<Entry>>, back: Answer, rest: seq<Answer>)
    requires s.providedCid != "" && ls(s.providedCid).Some? && s.lastPath != s.providedCid
    requires back.action == Back
    requires Admissible(Start(s.lastPath), ls, rest)
    ensures Admissible(s, ls, [back] + rest)
    ensures Run(s, ls, [back] + rest) == Run(Start(s.lastPath), ls, rest)
  {
    assert ([back] + rest)[1..] == rest;
  }
}
