/**
 * The action menus: the list `listActionOption` offers in the navigator and
 * the list `getOption` offers in the single-shot inspector (main.js). Each
 * choice carries the value the prompt returns and the name it shows.
 */
module Actions {
  import opened Listing

  /** The `value` of a menu choice. */
  datatype Action = Enter | Save | Show | Back | Exit

  /** One choice of a list prompt. */
  datatype Choice = Choice(value: Action, name: string)

  /** A side effect on the store the operator asked for: `getFile` + write, or `catFile` + display. */
  datatype Effect = SaveToLocal(cid: Cid, savePath: string) | ShowContents(cid: Cid)

  /** The values of a menu, in order. */
  function Values(menu: seq<Choice>): (vs: seq<Action>)
    ensures |vs| == |menu|
    ensures forall i :: 0 <= i < |menu| ==> vs[i] == menu[i].value
  {
    if menu == [] then [] else [menu[0].value] + Values(menu[1..])
  }

  /** The menu with the two moves of the navigator (Enter and Back) taken out, order kept. */
  function WithoutMoves(menu: seq<Choice>): (r: seq<Choice>)
    ensures |r| <= |menu|
  {
    if menu == [] then []
    else if menu[0].value == Enter || menu[0].value == Back then WithoutMoves(menu[1..])
    else [menu[0]] + WithoutMoves(menu[1..])
  }

  /**
   * The navigator's menu for a node of kind `k`. Enter is offered for
   * directories only, Show for files only, Save for everything but an empty
   * node; Back and Exit are always offered, Exit last.
   */
  function NavigatorMenu(k: Kind): (menu: seq<Choice>)
    ensures Enter in Values(menu) <==> k == Dir
    ensures Show in Values(menu) <==> k == File
    ensures Save in Values(menu) <==> k != Empty
    ensures Back in Values(menu) && Exit in Values(menu)
    ensures |menu| > 0 && menu[|menu| - 1].value == Exit
  {
    match k
    case Dir =>
      [Choice(Enter, "Enter directory"), Choice(Save, "Save directory to local"),
       Choice(Back, "Go back"), Choice(Exit, "Go to main options")]
    case File =>
      [Choice(Save, "Save file to local path"), Choice(Show, "Show file contents"),
       Choice(Back, "Go back"), Choice(Exit, "Go to main options")]
    case Empty =>
      [Choice(Back, "Go back"), Choice(Exit, "Go to main options")]
  }

  /**
   * The inspector's menu for a node of kind `k`: never Enter or Back, Show
   * for files only, Save for everything but an empty node, Exit always and last.
   */
  function InspectorMenu(k: Kind): (menu: seq<Choice>)
    ensures Enter !in Values(menu) && Back !in Values(menu)
    ensures Show in Values(menu) <==> k == File
    ensures Save in Values(menu) <==> k != Empty
    ensures |menu| > 0 && menu[|menu| - 1].value == Exit
  {
    match k
    case Dir =>
      [Choice(Save, "Save directory to local"), Choice(Exit, "Go to main options")]
    case File =>
      [Choice(Save, "Save file to local path"), Choice(Show, "Show file contents"),
       Choice(Exit, "Go to main options")]
    case Empty =>
      [Choice(Exit, "Go to main options")]
  }

  /** The inspector offers exactly the navigator's choices, names included, minus Enter and Back. */
  lemma InspectorIsNavigatorWithoutMoves(k: Kind)
    ensures InspectorMenu(k) == WithoutMoves(NavigatorMenu(k))
  {
    var m := NavigatorMenu(k);
    var x := [Choice(Exit, "Go to main options")];
    assert WithoutMoves(x) == x by { assert x[1..] == []; }
    match k
    case Dir =>
      assert m[1..][1..][1..] == x;
      assert WithoutMoves(m[1..][1..]) == x;
      assert WithoutMoves(m[1..]) == [m[1]] + x;
      assert WithoutMoves(m) == WithoutMoves(m[1..]);
    case File =>
      assert m[1..][1..][1..] == x;
      assert WithoutMoves(m[1..][1..]) == x;
      assert WithoutMoves(m[1..]) == [m[1]] + x;
      assert WithoutMoves(m) == [m[0]] + WithoutMoves(m[1..]);
    case Empty =>
      assert m[1..] == x;
  }
}
