/**
  The document the user edits, as the user sees it: a plain list of pages, a
  current page, and an undo history of bounded depth.
*/
module PdfDocument {

  const DEPTH := 30

  /** A page of the opened file, and how far it is turned. */
  datatype Leaf = Leaf(index: nat, rotation: int)

  datatype Doc = Doc(past: seq<seq<Leaf>>, present: seq<Leaf>, future: seq<seq<Leaf>>, current: int)

  function LastOf(s: seq<seq<Leaf>>, n: nat): seq<seq<Leaf>> {
    if |s| <= n then s else s[|s| - n..]
  }

  /** Every edit drops the redo branch, and the oldest state beyond the depth. */
  function Edited(d: Doc, pages: seq<Leaf>, current: int): Doc {
    Doc(LastOf(d.past + [d.present], DEPTH - 1), pages, [], current)
  }

  /** The remainder of a division that truncates towards zero. */
  function Rem(a: int, b: int): int
    requires b > 0
  {
    if a >= 0 then a % b else -((-a) % b)
  }

  function Turned(p: Leaf, deg: int): Leaf {
    p.(rotation := Rem(p.rotation + deg + 360, 360))
  }

  predicate OnPage(d: Doc) {
    0 <= d.current < |d.present|
  }

  function Rotate(d: Doc, deg: int): Doc {
    if OnPage(d) then Edited(d, d.present[d.current := Turned(d.present[d.current], deg)], d.current) else d
  }

  /** The last page cannot be deleted. */
  function Delete(d: Doc): Doc {
    if OnPage(d) && |d.present| > 1 then
      var pages := d.present[..d.current] + d.present[d.current + 1..];
      Edited(d, pages, if d.current >= |pages| then |pages| - 1 else d.current)
    else d
  }

  function Duplicate(d: Doc): Doc {
    if OnPage(d) then
      Edited(d, d.present[..d.current + 1] + d.present[d.current..], d.current + 1)
    else d
  }

  function Moved(pages: seq<Leaf>, from: nat, to: nat): seq<Leaf>
    requires from < |pages| && to < |pages|
  {
    var rest := pages[..from] + pages[from + 1..];
    rest[..to] + [pages[from]] + rest[to..]
  }

  /** A page is dragged to another one's place; the current page number stays. */
  function Move(d: Doc, from: nat, to: nat): Doc
    requires from < |d.present| && to < |d.present|
  {
    if from == to then d else Edited(d, Moved(d.present, from, to), d.current)
  }

  /** Where each page is after a move: the dragged one at its new place, those in between one place over. */
  lemma MovedAt(pages: seq<Leaf>, from: nat, to: nat, i: nat)
    requires from < |pages| && to < |pages| && i < |pages|
    ensures |Moved(pages, from, to)| == |pages|
    ensures Moved(pages, from, to)[i] ==
            if i == to then pages[from] else if from <= i < to then pages[i + 1] else if to < i <= from then pages[i - 1] else pages[i]
  {
  }

  /** Dragging the page back undoes the move. */
  lemma MoveBack(pages: seq<Leaf>, from: nat, to: nat)
    requires from < |pages| && to < |pages|
    ensures |Moved(pages, from, to)| == |pages| && Moved(Moved(pages, from, to), to, from) == pages
  {
    MovedAt(pages, from, to, 0);
    var moved := Moved(pages, from, to);
    forall i | 0 <= i < |pages| ensures |Moved(moved, to, from)| == |pages| && Moved(moved, to, from)[i] == pages[i] {
      MovedAt(moved, to, from, i);
      MovedAt(pages, from, to, if i == from then to else if to <= i < from then i + 1 else if from < i <= to then i - 1 else i);
    }
  }

  /** Undo and redo leave the current page number alone. */
  function Undo(d: Doc): Doc {
    if d.past == [] then d
    else
      var n := |d.past| - 1;
      d.(past := d.past[..n], present := d.past[n], future := [d.present] + d.future)
  }

  function Redo(d: Doc): Doc {
    if d.future == [] then d
    else d.(past := d.past + [d.present], present := d.future[0], future := d.future[1..])
  }

  /** No more than the depth is remembered, the present state included. */
  predicate Bounded(d: Doc) {
    |d.past| + 1 + |d.future| <= DEPTH
  }

  lemma UndoThenRedo(d: Doc)
    requires d.past != []
    ensures Redo(Undo(d)) == d
  {
  }

  lemma RedoThenUndo(d: Doc)
    requires d.future != []
    ensures Undo(Redo(d)) == d
  {
  }

  function UndoMany(d: Doc, n: nat): Doc
    decreases n
  {
    if n == 0 then d else UndoMany(Undo(d), n - 1)
  }

  /** What `n` undos show: the state `n` edits back, or the oldest one kept. */
  lemma {:induction false} UndoReaches(d: Doc, n: nat)
    ensures UndoMany(d, n).present ==
            if n == 0 then d.present else if n <= |d.past| then d.past[|d.past| - n]
            else if d.past == [] then d.present else d.past[0]
    decreases n
  {
    if n > 0 {
      UndoReaches(Undo(d), n - 1);
    }
  }

  function EditMany(d: Doc, edits: seq<seq<Leaf>>): Doc {
    if edits == [] then d
    else
      var before := EditMany(d, edits[..|edits| - 1]);
      Edited(before, edits[|edits| - 1], before.current)
  }

  lemma LastOfAppend(s: seq<seq<Leaf>>, x: seq<Leaf>, n: nat)
    ensures LastOf(LastOf(s, n) + [x], n) == LastOf(s + [x], n)
  {
  }

  /** The states an editing session keeps: those since and including `d`, as many as the depth allows. */
  function Remembered(d: Doc, edits: seq<seq<Leaf>>): seq<seq<Leaf>> {
    d.past + [d.present] + edits
  }

  lemma {:induction false} EditsRemembered(d: Doc, edits: seq<seq<Leaf>>)
    requires edits != []
    ensures var e, n := EditMany(d, edits), |edits| - 1;
            e.past == LastOf(Remembered(d, edits[..n]), DEPTH - 1) && e.present == edits[n] && e.future == []
  {
    var n := |edits| - 1;
    if n == 0 {
      assert Remembered(d, edits[..0]) == d.past + [d.present];
    } else {
      var before := EditMany(d, edits[..n]);
      EditsRemembered(d, edits[..n]);
      assert edits[..n][..n - 1] == edits[..n - 1];
      LastOfAppend(Remembered(d, edits[..n - 1]), edits[n - 1], DEPTH - 1);
      assert Remembered(d, edits[..n - 1]) + [edits[n - 1]] == Remembered(d, edits[..n]);
    }
  }

  /** As many undos as edits restore the document, for up to 29 edits; after more, the original is gone. */
  lemma UndoingEdits(d: Doc, edits: seq<seq<Leaf>>)
    ensures |edits| < DEPTH ==> UndoMany(EditMany(d, edits), |edits|).present == d.present
    ensures |edits| >= DEPTH ==> forall n :: UndoMany(EditMany(d, edits), n).present in edits
  {
    if edits != [] {
      EditsRemembered(d, edits);
      var e, all := EditMany(d, edits), Remembered(d, edits[..|edits| - 1]);
      UndoReaches(e, |edits|);
      if |edits| >= DEPTH {
        forall n: nat
          ensures UndoMany(e, n).present in edits
        {
          UndoReaches(e, n);
          assert forall i :: 0 <= i < |e.past| ==> e.past[i] == edits[|edits| - 1 - |e.past| + i];
        }
      }
    }
  }

  /** A turn adds its angle, in whole circles left over or missing. */
  lemma TurnsBy(p: Leaf, deg: int)
    requires 0 <= p.rotation < 360 && -360 <= deg <= 360
    ensures var q := Turned(p, deg);
            q.index == p.index && 0 <= q.rotation < 360 && (q.rotation - p.rotation - deg) % 360 == 0
  {
  }

  /** What rotating does to each page. */
  lemma RotatedAt(d: Doc, deg: int, i: nat)
    requires OnPage(d) && i < |d.present|
    ensures var e := Rotate(d, deg);
            && |e.present| == |d.present| && e.current == d.current && e.future == []
            && e.present[i] == if i == d.current then Turned(d.present[i], deg) else d.present[i]
  {
  }

  /** Deleting takes out the current page and no other, and shows the one behind it, or the last. */
  lemma DeletedAt(d: Doc, i: nat)
    requires OnPage(d) && i + 1 < |d.present|
    ensures var e := Delete(d);
            && |e.present| == |d.present| - 1 && e.future == []
            && e.present[i] == (if i < d.current then d.present[i] else d.present[i + 1])
            && e.current == if d.current == |d.present| - 1 then d.current - 1 else d.current
  {
  }

  /** Duplicating doubles the current page, and shows the copy behind it. */
  lemma DuplicatedAt(d: Doc, i: nat)
    requires OnPage(d) && i <= |d.present|
    ensures var e := Duplicate(d);
            && |e.present| == |d.present| + 1 && e.current == d.current + 1 && e.future == []
            && e.present[i] == if i <= d.current then d.present[i] else d.present[i - 1]
  {
  }

  /** A turn and its opposite cancel, for the rotations the editor produces. */
  lemma TurnBack(p: Leaf, deg: int)
    requires 0 <= p.rotation < 360 && -360 <= deg <= 360
    ensures Turned(Turned(p, deg), -deg) == p && 0 <= Turned(p, deg).rotation < 360
  {
  }
}

/** The editor itself: deleted pages stay in the list, marked, and every state is copied into the history. */
module PdfEditor {
  import opened PdfDocument

  datatype Page = Page(index: nat, rotation: int, deleted: bool)

  /** The pages that are not deleted. */
  function Visible(pages: seq<Page>): (v: seq<Leaf>)
    ensures |v| <= |pages|
  {
    if pages == [] then []
    else
      var n := |pages| - 1;
      Visible(pages[..n]) + if pages[n].deleted then [] else [Leaf(pages[n].index, pages[n].rotation)]
  }

  lemma {:induction false} VisibleConcat(a: seq<Page>, b: seq<Page>)
    ensures Visible(a + b) == Visible(a) + Visible(b)
  {
    if b == [] {
      assert a + b == a;
    } else {
      var n := |b| - 1;
      assert (a + b)[..|a| + n] == a + b[..n];
      VisibleConcat(a, b[..n]);
    }
  }

  lemma VisibleThree(a: seq<Page>, b: seq<Page>, c: seq<Page>)
    ensures Visible(a + b + c) == Visible(a) + Visible(b) + Visible(c)
  {
    VisibleConcat(a + b, c);
    VisibleConcat(a, b);
  }

  /** Page `i` and the visible pages on either side of it. */
  lemma VisibleAround(pages: seq<Page>, i: nat, left: seq<Page>, right: seq<Page>)
    requires i < |pages| && left == pages[..i] && right == pages[i + 1..]
    ensures Visible(pages) == Visible(left) + Visible([pages[i]]) + Visible(right)
  {
    assert pages == left + [pages[i]] + right;
    VisibleThree(left, [pages[i]], right);
  }

  lemma VisibleOne(p: Page)
    ensures Visible([p]) == if p.deleted then [] else [Leaf(p.index, p.rotation)]
  {
    assert [p][..0] == [];
  }

  lemma Spliced(a: seq<Leaf>, x: Leaf, b: seq<Leaf>, y: Leaf)
    ensures a + [y] + b == (a + [x] + b)[|a| := y]
    ensures a + b == (a + [x] + b)[..|a|] + (a + [x] + b)[|a| + 1..]
  {
  }

  /** Changing one visible page changes that one in what is visible; marking it deleted removes it. */
  lemma VisibleChanged(pages: seq<Page>, i: nat, q: Page)
    requires i < |pages| && !pages[i].deleted
    ensures var v, k, w := Visible(pages), |Visible(pages[..i])|, Visible(pages[i := q]);
            && k < |v| && v[k] == Leaf(pages[i].index, pages[i].rotation)
            && w == if q.deleted then v[..k] + v[k + 1..] else v[k := Leaf(q.index, q.rotation)]
  {
    var left, right := pages[..i], pages[i + 1..];
    VisibleAround(pages, i, left, right);
    VisibleAround(pages[i := q], i, left, right);
    VisibleOne(pages[i]);
    VisibleOne(q);
    Spliced(Visible(left), Leaf(pages[i].index, pages[i].rotation), Visible(right), Leaf(q.index, q.rotation));
    assert Visible(left) + [] == Visible(left);
  }

  lemma VisibleTurned(pages: seq<Page>, i: nat, q: Page)
    requires i < |pages| && !pages[i].deleted && !q.deleted
    ensures var v, k := Visible(pages), |Visible(pages[..i])|;
            && k < |v| && v[k] == Leaf(pages[i].index, pages[i].rotation)
            && Visible(pages[i := q]) == v[k := Leaf(q.index, q.rotation)]
  {
    VisibleChanged(pages, i, q);
  }

  lemma RotatedIs(d: Doc, pages: seq<Page>, i: nat, deg: int, turned: Page)
    requires i < |pages| && !pages[i].deleted && d.present == Visible(pages) && d.current == |Visible(pages[..i])|
    requires turned == pages[i].(rotation := Rem(pages[i].rotation + deg + 360, 360))
    ensures |Visible(pages[i := turned])| == |d.present| > 0
    ensures Edited(d, Visible(pages[i := turned]), d.current) == PdfDocument.Rotate(d, deg)
  {
    VisibleTurned(pages, i, turned);
  }

  lemma VisibleDuplicated(pages: seq<Page>, i: nat)
    requires i < |pages| && !pages[i].deleted
    ensures var v, k, w := Visible(pages), |Visible(pages[..i])|, Visible(pages[..i + 1] + [pages[i]] + pages[i + 1..]);
            k < |v| && w == v[..k + 1] + v[k..]
  {
    var left, right, one := pages[..i], pages[i + 1..], [pages[i]];
    VisibleAround(pages, i, left, right);
    VisibleOne(pages[i]);
    assert pages[..i + 1] + one + right == left + (one + one) + right;
    VisibleThree(left, one + one, right);
    VisibleConcat(one, one);
    Doubled(Visible(left), Leaf(pages[i].index, pages[i].rotation), Visible(right));
  }

  lemma Doubled(a: seq<Leaf>, x: Leaf, b: seq<Leaf>)
    ensures var v := a + [x] + b;
            a + ([x] + [x]) + b == v[..|a| + 1] + v[|a|..]
  {
  }

  /** The number a visible page shows, counted from zero. */
  function Rank(pages: seq<Page>, i: nat): nat
    requires i < |pages|
  {
    |Visible(pages[..i])|
  }

  lemma RankBelow(pages: seq<Page>, i: nat)
    requires i < |pages| && !pages[i].deleted
    ensures Rank(pages, i) < |Visible(pages)|
    ensures Visible(pages)[Rank(pages, i)] == Leaf(pages[i].index, pages[i].rotation)
    ensures Visible(pages[..i]) == Visible(pages)[..Rank(pages, i)]
    ensures Visible(pages[i + 1..]) == Visible(pages)[Rank(pages, i) + 1..]
  {
    VisibleAround(pages, i, pages[..i], pages[i + 1..]);
    VisibleOne(pages[i]);
  }

  /** Taking out a visible page takes it out of what is visible. */
  lemma VisibleRemoved(pages: seq<Page>, i: nat)
    requires i < |pages| && !pages[i].deleted
    ensures var v, k := Visible(pages), Rank(pages, i);
            k < |v| && Visible(pages[..i] + pages[i + 1..]) == v[..k] + v[k + 1..]
  {
    RankBelow(pages, i);
    VisibleConcat(pages[..i], pages[i + 1..]);
  }

  function MovedPages(pages: seq<Page>, from: nat, to: nat): seq<Page>
    requires from < |pages| && to < |pages|
  {
    var rest := pages[..from] + pages[from + 1..];
    rest[..to] + [pages[from]] + rest[to..]
  }

  /** How many visible pages come before the place of the drop, the dragged page taken out. */
  lemma RestBefore(pages: seq<Page>, from: nat, to: nat)
    requires from < |pages| && to < |pages| && from != to && !pages[from].deleted && !pages[to].deleted
    ensures var rest := pages[..from] + pages[from + 1..];
            |Visible(rest[..to])| == Rank(pages, to)
  {
    var rest := pages[..from] + pages[from + 1..];
    if to < from {
      assert rest[..to] == pages[..to];
    } else {
      var upTo := pages[..to + 1];
      VisibleConcat(pages[..to], [pages[to]]);
      VisibleOne(pages[to]);
      assert upTo == pages[..to] + [pages[to]];
      assert rest[..to] == upTo[..from] + upTo[from + 1..];
      VisibleRemoved(upTo, from);
    }
  }

  /** Moving a page in the list, deleted pages and all, moves it in what is visible. */
  lemma VisibleMoved(pages: seq<Page>, from: nat, to: nat)
    requires from < |pages| && to < |pages| && from != to && !pages[from].deleted && !pages[to].deleted
    ensures var v, a, b := Visible(pages), Rank(pages, from), Rank(pages, to);
            a < |v| && b < |v| && a != b && Visible(MovedPages(pages, from, to)) == Moved(v, a, b)
  {
    RankBelow(pages, from);
    RankBelow(pages, to);
    RanksDiffer(pages, from, to);
    RestBefore(pages, from, to);
    MovedInto(pages, from, to, pages[..from] + pages[from + 1..]);
  }

  lemma MovedInto(pages: seq<Page>, from: nat, to: nat, rest: seq<Page>)
    requires from < |pages| && to < |pages| && !pages[from].deleted && rest == pages[..from] + pages[from + 1..]
    requires Rank(pages, from) < |Visible(pages)| && Rank(pages, to) < |Visible(pages)| && |Visible(rest[..to])| == Rank(pages, to)
    requires Visible(pages)[Rank(pages, from)] == Leaf(pages[from].index, pages[from].rotation)
    ensures Visible(MovedPages(pages, from, to)) == Moved(Visible(pages), Rank(pages, from), Rank(pages, to))
  {
    VisibleRemoved(pages, from);
    VisibleInserted(rest, to, pages[from]);
  }

  lemma VisibleInserted(rest: seq<Page>, to: nat, p: Page)
    requires to <= |rest| && !p.deleted
    ensures var v, b := Visible(rest), |Visible(rest[..to])|;
            b <= |v| && Visible(rest[..to] + [p] + rest[to..]) == v[..b] + [Leaf(p.index, p.rotation)] + v[b..]
  {
    assert rest == rest[..to] + rest[to..];
    VisibleConcat(rest[..to], rest[to..]);
    VisibleThree(rest[..to], [p], rest[to..]);
    VisibleOne(p);
  }

  lemma DroppedIs(d: Doc, pages: seq<Page>, from: nat, to: nat)
    requires from < |pages| && to < |pages| && !pages[from].deleted && !pages[to].deleted && d.present == Visible(pages)
    ensures var a, b := Rank(pages, from), Rank(pages, to);
            && a < |d.present| && b < |d.present|
            && Move(d, a, b) == if from == to then d else Edited(d, Visible(MovedPages(pages, from, to)), d.current)
    ensures from != to ==> |Visible(MovedPages(pages, from, to))| == |d.present|
  {
    RankBelow(pages, from);
    RankBelow(pages, to);
    if from != to {
      VisibleMoved(pages, from, to);
      MovedLength(d.present, Rank(pages, from), Rank(pages, to));
    }
  }

  lemma MovedLength(v: seq<Leaf>, a: nat, b: nat)
    requires a < |v| && b < |v|
    ensures |Moved(v, a, b)| == |v|
  {
  }

  lemma NothingNew(pages: seq<Page>, from: nat, to: nat)
    requires from < |pages| && to < |pages|
    ensures forall p :: p in MovedPages(pages, from, to) ==> p in pages
  {
  }

  lemma RanksDiffer(pages: seq<Page>, i: nat, j: nat)
    requires i < |pages| && j < |pages| && i != j && !pages[i].deleted && !pages[j].deleted
    ensures Rank(pages, i) != Rank(pages, j)
  {
    var low, high := if i < j then i else j, if i < j then j else i;
    assert pages[..high][..low] == pages[..low];
    RankBelow(pages[..high], low);
  }

  /** The pages of a freshly opened file. */
  function Fresh(n: nat): seq<Leaf> {
    seq(n, (i: nat) => Leaf(i, 0))
  }

  lemma OneMoreFresh(pages: seq<Page>, i: nat)
    requires Visible(pages) == Fresh(i)
    ensures Visible(pages + [Page(i, 0, false)]) == Fresh(i + 1)
  {
    VisibleConcat(pages, [Page(i, 0, false)]);
    VisibleOne(Page(i, 0, false));
  }

  function States(history: seq<seq<Page>>): (v: seq<seq<Leaf>>)
    ensures |v| == |history|
  {
    seq(|history|, i requires 0 <= i < |history| => Visible(history[i]))
  }

  lemma StatesUpTo(history: seq<seq<Page>>, idx: nat)
    requires idx < |history|
    ensures States(history[..idx + 1]) == States(history[..idx]) + [Visible(history[idx])]
  {
  }

  /** Of the kept states, those before the newest. */
  lemma KeptBefore(all: seq<seq<Page>>, pages: seq<Page>, history: seq<seq<Page>>)
    requires history == LastStates(all + [pages], DEPTH)
    ensures history != [] && history[|history| - 1] == pages && history[..|history| - 1] == LastStates(all, DEPTH - 1)
  {
  }

  lemma KeptStates(all: seq<seq<Page>>)
    ensures States(LastStates(all, DEPTH - 1)) == LastOf(States(all), DEPTH - 1)
  {
  }

  class Editor {
    const pageCount: nat
    var pages: seq<Page>
    var currentPage: int
    var history: seq<seq<Page>>
    var historyIdx: int

    /** Every state still shows a page, if the file has one, and only pages the file has. */
    predicate Sound(ps: seq<Page>) {
      && (pageCount > 0 ==> Visible(ps) != [])
      && forall p :: p in ps ==> p.index < pageCount
    }

    predicate Valid()
      reads this
    {
      && 0 <= historyIdx < |history| <= DEPTH
      && history[historyIdx] == pages
      && forall h :: h in history ==> Sound(h)
    }

    /** The editor's state as the user sees it. */
    function View(): (d: Doc)
      requires Valid()
      reads this
      ensures Bounded(d)
    {
      Doc(States(history[..historyIdx]), Visible(pages), States(history[historyIdx + 1..]), currentPage)
    }

    constructor (pageCount: nat)
      ensures Valid() && this.pageCount == pageCount
      ensures View() == Doc([], Fresh(pageCount), [], 0)
    {
      this.pageCount := pageCount;
      currentPage, history, historyIdx := 0, [], -1;
      pages := [];
      new;
      ListPages();
      SaveState();
      FirstState();
    }

    method ListPages()
      modifies this`pages
      ensures Visible(pages) == Fresh(pageCount) && forall p :: p in pages ==> p.index < pageCount
    {
      pages := [];
      for i := 0 to pageCount
        invariant |pages| == i && (forall p :: p in pages ==> p.index < i)
        invariant Visible(pages) == Fresh(i)
      {
        OneMoreFresh(pages, i);
        pages := pages + [Page(i, 0, false)];
      }
    }

    lemma FirstState()
      requires history == [pages] && historyIdx == 0 && currentPage == 0
      requires Visible(pages) == Fresh(pageCount) && forall p :: p in pages ==> p.index < pageCount
      ensures Valid() && View() == Doc([], Fresh(pageCount), [], 0)
    {
    }

    /** Appends the current pages to the history, after dropping what was undone and, beyond the depth, the oldest state. */
    method SaveState()
      requires -1 <= historyIdx < |history| <= DEPTH
      modifies this`history, this`historyIdx
      ensures history == LastStates(old(history)[..old(historyIdx) + 1] + [pages], DEPTH)
      ensures historyIdx == |history| - 1
    {
      history := history[..historyIdx + 1];
      history := history + [pages];
      historyIdx := |history| - 1;
      if |history| > DEPTH {
        history := history[1..];
        historyIdx := historyIdx - 1;
      }
    }

    /** The list index of visible page number `currentPage`, or the length when there is none. */
    method FindCurrent() returns (i: nat)
      ensures i <= |pages|
      ensures i < |pages| ==> !pages[i].deleted && |Visible(pages[..i])| == currentPage
      ensures i < |pages| <==> 0 <= currentPage < |Visible(pages)|
    {
      var visibleIdx := 0;
      i := 0;
      while i < |pages|
        invariant i <= |pages| && visibleIdx == |Visible(pages[..i])|
        invariant visibleIdx <= currentPage || currentPage < 0
      {
        assert pages[..i + 1][..i] == pages[..i];
        if !pages[i].deleted {
          if visibleIdx == currentPage {
            VisibleAround(pages, i, pages[..i], pages[i + 1..]);
            VisibleOne(pages[i]);
            return;
          }
          visibleIdx := visibleIdx + 1;
        }
        i := i + 1;
      }
      assert pages[..|pages|] == pages;
    }

    /** Saving after the pages changed is one edit of the document. */
    lemma SavedIsEdited(was: Doc, oldHistory: seq<seq<Page>>, oldIdx: nat, oldPages: seq<Page>)
      requires oldIdx < |oldHistory| <= DEPTH && oldHistory[oldIdx] == oldPages
      requires was == Doc(States(oldHistory[..oldIdx]), Visible(oldPages), States(oldHistory[oldIdx + 1..]), was.current)
      requires history == LastStates(oldHistory[..oldIdx + 1] + [pages], DEPTH) && historyIdx == |history| - 1
      requires Sound(pages) && forall h :: h in oldHistory ==> Sound(h)
      ensures Valid() && View() == Edited(was, Visible(pages), currentPage)
    {
      var all := oldHistory[..oldIdx + 1];
      StatesUpTo(oldHistory, oldIdx);
      KeptBefore(all, pages, history);
      KeptStates(all);
      assert history[historyIdx + 1..] == [];
    }

    /** Carries out an edit and saves the state after it. */
    method Edit(newPages: seq<Page>, newCurrent: int)
      requires Valid() && Sound(newPages)
      modifies this`pages, this`currentPage, this`history, this`historyIdx
      ensures Valid() && View() == Edited(old(View()), Visible(newPages), newCurrent)
    {
      ghost var was := View();
      pages, currentPage := newPages, newCurrent;
      SaveState();
      SavedIsEdited(was, old(history), old(historyIdx), old(pages));
    }

    /** Changing a page keeps the list sound as long as something stays visible. */
    lemma StillSound(before: seq<Page>, i: nat, q: Page)
      requires i < |before| && Sound(before) && q.index == before[i].index
      requires Visible(before[i := q]) != []
      ensures Sound(before[i := q])
    {
      forall p | p in before[i := q]
        ensures p.index < pageCount
      {
        var k :| 0 <= k < |before| && before[i := q][k] == p;
        assert before[k] in before;
      }
    }

    method Rotate(deg: int)
      requires Valid()
      modifies this`pages, this`currentPage, this`history, this`historyIdx
      ensures Valid() && View() == PdfDocument.Rotate(old(View()), deg)
    {
      var i := FindCurrent();
      if i == |pages| {
        return;
      }
      var turned := pages[i].(rotation := Rem(pages[i].rotation + deg + 360, 360));
      RotatedIs(View(), pages, i, deg, turned);
      StillSound(pages, i, turned);
      Edit(pages[i := turned], currentPage);
    }

    /** `confirmed` is the answer to the dialog. */
    method DeletePage(confirmed: bool)
      requires Valid()
      modifies this`pages, this`currentPage, this`history, this`historyIdx
      ensures Valid() && View() == if confirmed then Delete(old(View())) else old(View())
    {
      if |Visible(pages)| <= 1 || !confirmed {
        return;
      }
      var i := FindCurrent();
      if i == |pages| {
        return;
      }
      var gone := pages[i].(deleted := true);
      VisibleChanged(pages, i, gone);
      StillSound(pages, i, gone);
      var newCount := |Visible(pages[i := gone])|;
      Edit(pages[i := gone], if currentPage >= newCount then newCount - 1 else currentPage);
    }

    method DuplicatePage()
      requires Valid()
      modifies this`pages, this`currentPage, this`history, this`historyIdx
      ensures Valid() && View() == Duplicate(old(View()))
    {
      var i := FindCurrent();
      if i == |pages| {
        return;
      }
      VisibleDuplicated(pages, i);
      var doubled := pages[..i + 1] + [pages[i]] + pages[i + 1..];
      assert forall p :: p in doubled ==> p in pages;
      assert pages in history;
      Edit(doubled, currentPage + 1);
    }

    /** The thumbnail of list entry `from` is dropped on that of entry `to`. */
    method DropThumbnail(from: nat, to: nat)
      requires Valid() && from < |pages| && to < |pages| && !pages[from].deleted && !pages[to].deleted
      modifies this`pages, this`currentPage, this`history, this`historyIdx
      ensures var a, b := Rank(old(pages), from), Rank(old(pages), to);
              && a < |old(View()).present| && b < |old(View()).present|
              && Valid() && View() == Move(old(View()), a, b)
    {
      DroppedIs(View(), pages, from, to);
      if from == to {
        return;
      }
      var item := pages[from];
      var rest := pages[..from] + pages[from + 1..];
      assert pages in history;
      NothingNew(pages, from, to);
      Edit(rest[..to] + [item] + rest[to..], currentPage);
    }

    method Undo()
      requires Valid()
      modifies this`pages, this`historyIdx
      ensures Valid() && View() == PdfDocument.Undo(old(View()))
    {
      if historyIdx <= 0 {
        return;
      }
      historyIdx := historyIdx - 1;
      pages := history[historyIdx];
      assert history[..historyIdx] == history[..historyIdx + 1][..historyIdx];
      assert States(history[historyIdx + 1..]) == [Visible(history[historyIdx + 1])] + States(history[historyIdx + 2..]);
    }

    method Redo()
      requires Valid()
      modifies this`pages, this`historyIdx
      ensures Valid() && View() == PdfDocument.Redo(old(View()))
    {
      if historyIdx >= |history| - 1 {
        return;
      }
      historyIdx := historyIdx + 1;
      pages := history[historyIdx];
      assert States(history[..historyIdx]) == States(history[..historyIdx - 1]) + [Visible(history[historyIdx - 1])];
      assert history[historyIdx + 1..] == history[historyIdx..][1..];
    }

    /** The pages copied into the exported file, in order: source page and rotation. */
    method Export() returns (out: seq<Leaf>)
      requires Valid()
      ensures out == View().present
      ensures forall p :: p in out ==> p.index < pageCount
    {
      out := [];
      for i := 0 to |pages|
        invariant out == Visible(pages[..i])
        invariant forall p :: p in out ==> p.index < pageCount
      {
        assert pages[..i + 1][..i] == pages[..i];
        assert pages[i] in pages && pages in history;
        if !pages[i].deleted {
          out := out + [Leaf(pages[i].index, pages[i].rotation)];
        }
      }
      assert pages[..|pages|] == pages;
    }
  }

  function LastStates(s: seq<seq<Page>>, n: nat): seq<seq<Page>> {
    if |s| <= n then s else s[|s| - n..]
  }
}
