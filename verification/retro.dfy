/** The retrospective board: a fixed sequence of phases, items added under
    one of three categories, and a one-vote-per-item toggle. The board is
    local to the page; nothing is sent to a server. */
module Retro {
  import opened Basics

  datatype Phase = Collecting | Discussing | Voting | Completed

  datatype Category = Start | Stop | Continue

  datatype RetroItem = RetroItem(
    id: string,
    category: Category,
    text: string,
    author: string,
    votes: int,
    hasVoted: bool)

  /** The page's state: the items, the text and category of the add form,
      and the phase. */
  datatype Board = Board(items: seq<RetroItem>, newItemText: string, selectedCategory: Category, phase: Phase)

  const InitialBoard := Board([], "", Start, Collecting)

  /** The author every item is created with. */
  const DefaultAuthor := "User"

  const DashboardPath := "/dashboard"

  /** Position of a phase in the sequence. */
  function Rank(p: Phase): nat {
    match p
    case Collecting => 0
    case Discussing => 1
    case Voting => 2
    case Completed => 3
  }

  /** The phase button: each phase's button moves to the next one, and the
      last phase's button navigates to the dashboard instead. */
  function PhaseButton(p: Phase): (r: (Phase, Option<string>))
    ensures p != Completed ==> Rank(r.0) == Rank(p) + 1 && r.1.None?
    ensures p == Completed ==> r == (Completed, Some(DashboardPath))
  {
    match p
    case Collecting => (Discussing, None)
    case Discussing => (Voting, None)
    case Voting => (Completed, None)
    case Completed => (Completed, Some(DashboardPath))
  }

  /** Pressing the phase button `n` times from a phase. */
  function Press(p: Phase, n: nat): Phase
    decreases n
  {
    if n == 0 then p else Press(PhaseButton(p).0, n - 1)
  }

  /** The phases are visited in order, one per press, and the last one is
      never left: after `n` presses the rank is the starting rank plus `n`,
      capped at the last phase. */
  lemma {:induction false} PressAdvances(p: Phase, n: nat)
    ensures Rank(Press(p, n)) == if Rank(p) + n <= 3 then Rank(p) + n else 3
    decreases n
  {
    if n > 0 {
      PressAdvances(PhaseButton(p).0, n - 1);
    }
  }

  /** A phase is determined by its rank, so the phase sequence has no
      branches. */
  lemma RankDetermines(p: Phase, q: Phase)
    ensures Rank(p) == Rank(q) ==> p == q
  {
  }

  /** The add form is only shown while collecting; votes can only be given
      while voting; vote counts are shown while discussing and at the end. */
  predicate AddFormShown(b: Board) { b.phase == Collecting }
  predicate VoteButtonsShown(b: Board) { b.phase == Voting }
  predicate VoteCountShown(b: Board, item: RetroItem) {
    (b.phase == Discussing || b.phase == Completed) && item.votes > 0
  }

  /** `handleAddItem()`. `id` is the clock reading `Date.now().toString()`. */
  function AddItem(b: Board, id: string): (r: Board)
    ensures IsBlank(b.newItemText) ==> r == b
    ensures !IsBlank(b.newItemText) ==>
      && |r.items| == |b.items| + 1
      && r.items[..|b.items|] == b.items
      && r.items[|b.items|] == RetroItem(id, b.selectedCategory, b.newItemText, DefaultAuthor, 0, false)
      && r.newItemText == ""
      && r.phase == b.phase && r.selectedCategory == b.selectedCategory
  {
    BlankIffTrimEmpty(b.newItemText);
    if Trim(b.newItemText) == "" then b
    else
      var item := RetroItem(id, b.selectedCategory, b.newItemText, DefaultAuthor, 0, false);
      assert (b.items + [item])[..|b.items|] == b.items;
      b.(items := b.items + [item], newItemText := "")
  }

  /** One item after its vote button is pressed. */
  function Toggle(item: RetroItem): RetroItem {
    item.(votes := if item.hasVoted then item.votes - 1 else item.votes + 1, hasVoted := !item.hasVoted)
  }

  /** `handleVote(itemId)`: toggles every item with that id. */
  function Vote(items: seq<RetroItem>, id: string): (r: seq<RetroItem>)
    ensures |r| == |items|
    ensures forall i :: 0 <= i < |items| && items[i].id != id ==> r[i] == items[i]
    ensures forall i :: 0 <= i < |items| && items[i].id == id ==>
      && r[i].hasVoted == !items[i].hasVoted
      && r[i].votes == items[i].votes + (if items[i].hasVoted then -1 else 1)
      && r[i].(votes := items[i].votes, hasVoted := items[i].hasVoted) == items[i]
    decreases |items|
  {
    if items == [] then []
    else [if items[0].id == id then Toggle(items[0]) else items[0]] + Vote(items[1..], id)
  }

  /** Voting twice on the same item takes the vote back: the list is as it
      was before. */
  lemma {:induction false} VoteTwice(items: seq<RetroItem>, id: string)
    ensures Vote(Vote(items, id), id) == items
    decreases |items|
  {
    if items != [] {
      VoteTwice(items[1..], id);
      var once := Vote(items, id);
      assert once[1..] == Vote(items[1..], id);
      assert once[0].id == items[0].id;
    }
  }

  /** Every item's count is the number of the user's own votes on it. */
  predicate WellCounted(items: seq<RetroItem>) {
    forall i :: 0 <= i < |items| ==> items[i].votes == if items[i].hasVoted then 1 else 0
  }

  lemma WellCountedAppend(items: seq<RetroItem>, item: RetroItem)
    requires WellCounted(items) && item.votes == if item.hasVoted then 1 else 0
    ensures WellCounted(items + [item])
  {
    forall i | 0 <= i < |items + [item]|
      ensures (items + [item])[i].votes == if (items + [item])[i].hasVoted then 1 else 0
    {
      if i < |items| {
        assert (items + [item])[i] == items[i];
      }
    }
  }

  /** The count invariant survives adding an item. */
  lemma AddItemWellCounted(b: Board, id: string)
    requires WellCounted(b.items)
    ensures WellCounted(AddItem(b, id).items)
  {
    var r := AddItem(b, id).items;
    if !IsBlank(b.newItemText) {
      var item := RetroItem(id, b.selectedCategory, b.newItemText, DefaultAuthor, 0, false);
      assert r == b.items + [item] by {
        assert r == r[..|b.items|] + [r[|b.items|]];
      }
      WellCountedAppend(b.items, item);
    }
  }

  /** The count invariant survives every vote, so a count is always 0
      or 1. */
  lemma VoteWellCounted(items: seq<RetroItem>, id: string)
    requires WellCounted(items)
    ensures WellCounted(Vote(items, id))
    ensures forall i :: 0 <= i < |items| ==> 0 <= Vote(items, id)[i].votes <= 1
  {
  }

  lemma InitialWellCounted()
    ensures WellCounted(InitialBoard.items)
  {
  }

  /** `getCategoryItems(c)`: the items of one category, in order. */
  function CategoryItems(items: seq<RetroItem>, c: Category): (r: seq<RetroItem>)
    ensures |r| <= |items|
    ensures forall x :: x in r <==> x in items && x.category == c
    decreases |items|
  {
    if items == [] then []
    else (if items[0].category == c then [items[0]] else []) + CategoryItems(items[1..], c)
  }

  lemma {:induction false} CategoryItemsAppend(a: seq<RetroItem>, b: seq<RetroItem>, c: Category)
    ensures CategoryItems(a + b, c) == CategoryItems(a, c) + CategoryItems(b, c)
    decreases |a|
  {
    if a == [] {
      assert a + b == b;
    } else {
      assert (a + b)[0] == a[0];
      assert (a + b)[1..] == a[1..] + b;
      CategoryItemsAppend(a[1..], b, c);
    }
  }

  /** The three columns partition the board: together they hold every item
      exactly as often as the board does. */
  lemma {:induction false} ColumnsPartition(items: seq<RetroItem>)
    ensures multiset(CategoryItems(items, Start)) + multiset(CategoryItems(items, Stop))
      + multiset(CategoryItems(items, Continue)) == multiset(items)
    ensures |CategoryItems(items, Start)| + |CategoryItems(items, Stop)| + |CategoryItems(items, Continue)| == |items|
    decreases |items|
  {
    if items != [] {
      ColumnsPartition(items[1..]);
      assert items == [items[0]] + items[1..];
    }
  }

  /** A new item shows up at the end of its own column; the other columns
      do not change. */
  lemma AddItemColumn(b: Board, id: string, c: Category)
    requires !IsBlank(b.newItemText)
    ensures CategoryItems(AddItem(b, id).items, c) ==
      CategoryItems(b.items, c) +
      (if c == b.selectedCategory then [RetroItem(id, c, b.newItemText, DefaultAuthor, 0, false)] else [])
  {
    var item := RetroItem(id, b.selectedCategory, b.newItemText, DefaultAuthor, 0, false);
    var r := AddItem(b, id).items;
    assert r == r[..|b.items|] + [r[|b.items|]];
    CategoryItemsAppend(b.items, [item], c);
  }

  /** A vote never moves an item to another column or changes a column's
      length. */
  lemma {:induction false} VoteKeepsColumns(items: seq<RetroItem>, id: string, c: Category)
    ensures |CategoryItems(Vote(items, id), c)| == |CategoryItems(items, c)|
    decreases |items|
  {
    if items != [] {
      VoteKeepsColumns(items[1..], id, c);
      assert Vote(items, id)[1..] == Vote(items[1..], id);
    }
  }
}
