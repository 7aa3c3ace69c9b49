/**
 Consistent page images: which pages decode as tree pages, how overflow chains run, and the
 depth-first walk that lists a table's rows in key order.
 */
module PageImages {
  import opened Wrappers
  import opened Bytes
  import opened Varint
  import opened Pages

  /** The bytes of a complete image. */
  datatype Bodies = Bodies(pageCount: int, usable: nat, pages: map<int, seq<byte>>)

  /**
   What a reader may ask of an image: `tree` holds the pages that decode, `next` the
   first word of every readable page.
   */
  datatype Image = Image(pageCount: int, usable: nat, tree: map<int, TreePage>, next: map<int, int>)

  ghost predicate GoodBodies(b: Bodies) {
    && 480 <= b.usable
    && (forall p :: p in b.pages <==> 1 <= p <= b.pageCount)
    && (forall p :: p in b.pages ==> b.usable <= |b.pages[p]|)
  }

  /** The image that full reads of the bodies give. */
  function Decoded(b: Bodies): (image: Image)
    requires GoodBodies(b)
    ensures GoodImage(image)
  {
    var tree := map p | p in b.pages && DecodePage(b.pages[p], p, b.usable, b.pageCount).Ok?
                   :: DecodePage(b.pages[p], p, b.usable, b.pageCount).value;
    forall p | p in tree ensures SoundPage(tree[p], p, b.usable, b.pageCount) { DecodeSound(b.pages[p], p, b.usable, b.pageCount); }
    Image(b.pageCount, b.usable, tree, map p | p in b.pages :: Big(b.pages[p], 0))
  }

  ghost predicate GoodImage(image: Image) {
    && 480 <= image.usable
    && (forall p :: p in image.tree ==> 1 <= p <= image.pageCount && ShapedPage(image.tree[p], p, image.usable))
  }

  // ---- Overflow chains ----

  function Least(a: int, b: int): int { if a < b then a else b }

  /** The pages of a chain that must hold `remaining` bytes, starting at `page` (none: 0). */
  function ChainFrom(image: Image, page: int, remaining: int, seen: set<int>): Result<seq<int>, PageError>
    requires 480 <= image.usable
    decreases remaining
  {
    if remaining <= 0 then if page == 0 then Ok([]) else Err(PageUnavailable)
    else if page == 0 || page in seen || !(1 < page <= image.pageCount) || page !in image.next then Err(PageUnavailable)
    else
      var rest := remaining - Least(remaining, image.usable - 4);
      if rest == 0 && image.next[page] != 0 then Err(PageUnavailable) else
        match ChainFrom(image, image.next[page], rest, seen + {page})
        case Err(e) => Err(e)
        case Ok(more) => Ok([page] + more)
  }

  /** The overflow pages of one cell of leaf `leaf`, in order. */
  function Chain(image: Image, cell: Cell, leaf: int): Result<seq<int>, PageError>
    requires 480 <= image.usable
  {
    ChainFrom(image, if cell.overflow.Some? then cell.overflow.value else 0, cell.payload - cell.local, {leaf})
  }

  method OverflowPages(image: Image, cell: Cell, leaf: int) returns (r: Result<seq<int>, PageError>)
    requires 480 <= image.usable && cell.local <= cell.payload
    ensures r == Chain(image, cell, leaf)
  {
    var remaining := cell.payload - cell.local;
    var page := if cell.overflow.Some? then cell.overflow.value else 0;
    var seen := {leaf};
    var pages: seq<int> := [];
    assert forall more: seq<int> :: pages + more == more;
    while remaining != 0
      invariant 0 <= remaining
      invariant Chain(image, cell, leaf) == match ChainFrom(image, page, remaining, seen)
                                            case Err(e) => Err(e)
                                            case Ok(more) => Ok(pages + more)
    {
      if page == 0 || page in seen || !(1 < page <= image.pageCount) || page !in image.next {
        return Err(PageUnavailable);
      }
      seen := seen + {page};
      remaining := remaining - Least(remaining, image.usable - 4);
      if remaining == 0 && image.next[page] != 0 { return Err(PageUnavailable); }
      assert forall more :: pages + ([page] + more) == (pages + [page]) + more;
      pages := pages + [page];
      page := image.next[page];
    }
    if page != 0 { return Err(PageUnavailable); }
    assert pages + [] == pages;
    return Ok(pages);
  }

  /** A chain: distinct pages off the leaf, each linked to the next, as many as the bytes need. */
  ghost predicate IsChain(image: Image, pages: seq<int>, page: int, remaining: int, seen: set<int>)
    requires 480 <= image.usable
  {
    && 0 <= remaining && |pages| == OverflowCount(remaining, image.usable)
    && (forall i :: 0 <= i < |pages| ==> 1 < pages[i] <= image.pageCount && pages[i] !in seen && pages[i] in image.next)
    && (if pages == [] then page == 0 else pages[0] == page && image.next[pages[|pages| - 1]] == 0)
    && (forall i :: 0 <= i < |pages| - 1 ==> image.next[pages[i]] == pages[i + 1])
    && Distinct(pages)
  }

  lemma {:induction false} ChainSound(image: Image, page: int, remaining: int, seen: set<int>)
    requires 480 <= image.usable && 0 <= remaining && ChainFrom(image, page, remaining, seen).Ok?
    ensures IsChain(image, ChainFrom(image, page, remaining, seen).value, page, remaining, seen)
    decreases remaining
  {
    if remaining > 0 {
      var rest := remaining - Least(remaining, image.usable - 4);
      ChainSound(image, image.next[page], rest, seen + {page});
      var more := ChainFrom(image, image.next[page], rest, seen + {page}).value;
      var pages := [page] + more;
      assert more != [] ==> pages[|pages| - 1] == more[|more| - 1];
    }
  }

  /** Conversely, every chain is what the reader yields. */
  lemma {:induction false} ChainComplete(image: Image, pages: seq<int>, page: int, remaining: int, seen: set<int>)
    requires 480 <= image.usable && IsChain(image, pages, page, remaining, seen)
    ensures ChainFrom(image, page, remaining, seen) == Ok(pages)
    decreases remaining
  {
    if remaining > 0 {
      var rest := remaining - Least(remaining, image.usable - 4);
      var more := pages[1..];
      assert pages == [page] + more;
      assert more != [] ==> more[|more| - 1] == pages[|pages| - 1] && more[0] == pages[1];
      assert forall i :: 0 <= i < |more| ==> more[i] == pages[i + 1];
      assert IsChain(image, more, image.next[page], rest, seen + {page});
      ChainComplete(image, more, image.next[page], rest, seen + {page});
    }
  }

  // ---- Tree traversal ----

  /** A subtree still to be read, with the bounds (lower, upper] its keys inherit. */
  datatype Pending = Pending(page: int, lower: Option<int>, upper: Option<int>)

  function PageKeys(t: TreePage): seq<int> {
    if t.children != [] then t.separators else seq(|t.cells|, i requires 0 <= i < |t.cells| => t.cells[i].rowId)
  }

  predicate Above(key: int, lower: Option<int>) { lower.None? || lower.value < key }

  predicate Below(key: int, upper: Option<int>) { upper.None? || key <= upper.value }

  predicate InBounds(keys: seq<int>, lower: Option<int>, upper: Option<int>) {
    forall i :: 0 <= i < |keys| ==> Above(keys[i], lower) && Below(keys[i], upper)
  }

  /** Bound number `i` of (lower, *separators, upper). */
  function BoundAt(t: TreePage, lower: Option<int>, upper: Option<int>, i: nat): Option<int>
    requires i <= |t.separators| + 1
  {
    if i == 0 then lower else if i <= |t.separators| then Some(t.separators[i - 1]) else upper
  }

  /** The children from number `i` on, as pending entries: first child first. */
  function Push(t: TreePage, lower: Option<int>, upper: Option<int>, i: nat): (r: seq<Pending>)
    requires i <= |t.children| && (t.children == [] || |t.children| == |t.separators| + 1)
    ensures |r| == |t.children| - i
    ensures forall j :: 0 <= j < |r| ==>
      r[j] == Pending(t.children[i + j], BoundAt(t, lower, upper, i + j), BoundAt(t, lower, upper, i + j + 1))
    decreases |t.children| - i
  {
    if i == |t.children| then [] else
      [Pending(t.children[i], BoundAt(t, lower, upper, i), BoundAt(t, lower, upper, i + 1))] + Push(t, lower, upper, i + 1)
  }

  /** Adjacent entries share a bound; only the last has no upper bound; bounds ascend. */
  ghost predicate Chained(stack: seq<Pending>) {
    && (forall i :: 0 <= i < |stack| - 1 ==> stack[i].upper.Some? && stack[i].upper == stack[i + 1].lower)
    && (forall i :: 0 <= i < |stack| && stack[i].lower.Some? && stack[i].upper.Some? ==> stack[i].lower.value <= stack[i].upper.value)
    && (stack != [] ==> stack[|stack| - 1].upper.None?)
  }

  ghost predicate AllBelow(ids: seq<int>, edge: Option<int>) {
    edge.Some? ==> forall i :: 0 <= i < |ids| ==> ids[i] <= edge.value
  }

  /** The row ids of the leaf cells of a list of pages, in page order. */
  function RowIds(pages: seq<TreePage>): seq<int> {
    if pages == [] then [] else
      var t := pages[|pages| - 1];
      RowIds(pages[..|pages| - 1]) + if t.children == [] then PageKeys(t) else []
  }

  lemma {:induction false} CardinalityBound(s: set<int>, n: nat)
    requires forall x :: x in s ==> 1 <= x <= n
    ensures |s| <= n
  {
    if n == 0 {
      Inhabited(s);
    } else {
      CardinalityBound(s - {n}, n - 1);
    }
  }

  /** Where the walk stands: ids emitted so far lie before everything still on the stack. */
  ghost predicate Walking(stack: seq<Pending>, pages: seq<TreePage>) {
    var ids := RowIds(pages);
    && Chained(stack) && Increasing(ids)
    && (stack != [] ==> AllBelow(ids, stack[0].lower) && (stack[0].lower.None? ==> ids == []))
  }

  lemma {:induction false} WalkLeaf(stack: seq<Pending>, pages: seq<TreePage>, t: TreePage)
    requires Walking(stack, pages) && stack != [] && t.children == []
    requires Increasing(PageKeys(t)) && InBounds(PageKeys(t), stack[0].lower, stack[0].upper)
    ensures Walking(stack[1..], pages + [t])
  {
    var ids, keys := RowIds(pages), PageKeys(t);
    assert (pages + [t])[..|pages|] == pages;
    assert RowIds(pages + [t]) == ids + keys;
    forall i, j | 0 <= i < |ids| && 0 <= j < |keys| ensures ids[i] < keys[j] {
      assert Above(keys[j], stack[0].lower);
    }
    if |stack| > 1 {
      assert stack[1].lower == stack[0].upper;
      forall j | 0 <= j < |keys| ensures keys[j] <= stack[0].upper.value { assert Below(keys[j], stack[0].upper); }
    }
  }

  lemma {:induction false} WalkInterior(stack: seq<Pending>, pages: seq<TreePage>, t: TreePage)
    requires Walking(stack, pages) && stack != [] && t.children != [] && |t.children| == |t.separators| + 1
    requires Increasing(t.separators) && InBounds(t.separators, stack[0].lower, stack[0].upper)
    ensures Walking(Push(t, stack[0].lower, stack[0].upper, 0) + stack[1..], pages + [t])
  {
    var pushed := Push(t, stack[0].lower, stack[0].upper, 0);
    assert (pages + [t])[..|pages|] == pages;
    assert RowIds(pages + [t]) == RowIds(pages);
    PushedAscend(t, stack[0].lower, stack[0].upper, pushed);
    hide RowIds, Increasing, AllBelow, InBounds, Push;
    ChainedMore(stack, pushed);
  }

  /** Pushed entries share their bounds and ascend between the inherited ones. */
  lemma PushedAscend(t: TreePage, lower: Option<int>, upper: Option<int>, pushed: seq<Pending>)
    requires t.children != [] && |t.children| == |t.separators| + 1 && pushed == Push(t, lower, upper, 0)
    requires Increasing(t.separators) && InBounds(t.separators, lower, upper)
    requires lower.Some? && upper.Some? ==> lower.value <= upper.value
    ensures |pushed| == |t.children| && pushed[0].lower == lower && pushed[|pushed| - 1].upper == upper
    ensures forall i :: 0 <= i < |pushed| - 1 ==> pushed[i].upper.Some? && pushed[i].upper == pushed[i + 1].lower
    ensures forall i :: 0 <= i < |pushed| && pushed[i].lower.Some? && pushed[i].upper.Some? ==> pushed[i].lower.value <= pushed[i].upper.value
  {
    forall i | 0 <= i < |pushed| && pushed[i].lower.Some? && pushed[i].upper.Some?
      ensures pushed[i].lower.value <= pushed[i].upper.value
    {
      if 0 < i < |t.separators| { assert t.separators[i - 1] < t.separators[i]; }
      if i < |t.separators| { assert Above(t.separators[i], lower); }
      if i > 0 { assert Below(t.separators[i - 1], upper); }
    }
  }

  lemma ChainedMore(stack: seq<Pending>, pushed: seq<Pending>)
    requires Chained(stack) && stack != [] && pushed != []
    requires pushed[0].lower == stack[0].lower && pushed[|pushed| - 1].upper == stack[0].upper
    requires forall i :: 0 <= i < |pushed| - 1 ==> pushed[i].upper.Some? && pushed[i].upper == pushed[i + 1].lower
    requires forall i :: 0 <= i < |pushed| && pushed[i].lower.Some? && pushed[i].upper.Some? ==> pushed[i].lower.value <= pushed[i].upper.value
    ensures Chained(pushed + stack[1..])
  {
    var more := pushed + stack[1..];
    forall i | |pushed| <= i < |more| ensures more[i] == stack[i - |pushed| + 1] {}
    forall i | 0 <= i < |more| - 1 ensures more[i].upper.Some? && more[i].upper == more[i + 1].lower {
      if i == |pushed| - 1 { assert more[i + 1] == stack[1]; }
      else if i >= |pushed| { assert more[i] == stack[i - |pushed| + 1] && more[i + 1] == stack[i - |pushed| + 2]; }
    }
  }

  ghost function Numbers(pages: seq<TreePage>): (r: set<int>)
  {
    set i | 0 <= i < |pages| :: pages[i].number
  }

  /** The pages read are closed downwards up to what is still pending, and each hangs below the root. */
  ghost predicate Spanning(image: Image, root: int, seen: set<int>, stack: seq<Pending>) {
    && (forall p :: p in seen ==> p in image.tree)
    && (forall p, c :: p in seen && c in image.tree[p].children ==> c in seen || exists e :: e in stack && e.page == c)
    && (forall e :: e in stack ==> e.page == root || exists p :: p in seen && e.page in image.tree[p].children)
    && (forall p :: p in seen ==> p == root || exists q :: q in seen && p in image.tree[q].children)
    && (root in seen || (seen == {} && exists e :: e in stack && e.page == root))
  }

  ghost predicate Visited(image: Image, pages: seq<TreePage>) {
    && (forall i :: 0 <= i < |pages| ==> pages[i].number in image.tree && pages[i] == image.tree[pages[i].number])
    && (forall i, j :: 0 <= i < j < |pages| ==> pages[i].number != pages[j].number)
  }

  ghost predicate WalkState(image: Image, root: int, seen: set<int>, stack: seq<Pending>, pages: seq<TreePage>) {
    seen == Numbers(pages) && Visited(image, pages) && Walking(stack, pages) && Spanning(image, root, seen, stack)
  }

  lemma {:induction false} WalkStep(image: Image, root: int, seen: set<int>, stack: seq<Pending>, pages: seq<TreePage>)
    requires GoodImage(image) && WalkState(image, root, seen, stack, pages) && stack != []
    requires stack[0].page !in seen && stack[0].page in image.tree
    requires InBounds(PageKeys(image.tree[stack[0].page]), stack[0].lower, stack[0].upper)
    ensures var t := image.tree[stack[0].page];
            && (t.children == [] || |t.children| == |t.separators| + 1)
            && WalkState(image, root, seen + {stack[0].page}, Push(t, stack[0].lower, stack[0].upper, 0) + stack[1..], pages + [t])
  {
    var t := image.tree[stack[0].page];
    assert ShapedPage(t, stack[0].page, image.usable);
    var pushed := Push(t, stack[0].lower, stack[0].upper, 0);
    if t.children == [] {
      WalkLeaf(stack, pages, t);
      assert pushed + stack[1..] == stack[1..];
    } else {
      WalkInterior(stack, pages, t);
    }
    Span(image, root, seen, stack, t, pushed);
    NumbersMore(pages, t);
    VisitedMore(image, pages, t);
  }

  lemma VisitedMore(image: Image, pages: seq<TreePage>, t: TreePage)
    requires Visited(image, pages) && t.number in image.tree && t == image.tree[t.number] && t.number !in Numbers(pages)
    ensures Visited(image, pages + [t])
  {
    assert forall i :: 0 <= i < |pages| ==> pages[i].number in Numbers(pages);
  }

  lemma PagesCounted(image: Image, seen: set<int>)
    requires GoodImage(image) && forall p :: p in seen ==> p in image.tree
    ensures seen != {} ==> |seen| <= image.pageCount
  {
    forall p | p in seen ensures 1 <= p <= image.pageCount { assert ShapedPage(image.tree[p], p, image.usable); }
    Inhabited(seen);
    if seen != {} { CardinalityBound(seen, image.pageCount); }
  }

  /** The pages below what is pending, or the refusal that the walk ends in. */
  function Walk(image: Image, stack: seq<Pending>, seen: set<int>): Result<seq<TreePage>, PageError>
    requires GoodImage(image)
    decreases |image.tree.Keys - seen|
  {
    if stack == [] then Ok([]) else
      var top := stack[0];
      if top.page in seen || top.page !in image.tree || !InBounds(PageKeys(image.tree[top.page]), top.lower, top.upper) then Err(PageUnavailable)
      else
        var t := image.tree[top.page];
        assert ShapedPage(t, top.page, image.usable);
        assert image.tree.Keys - seen == (image.tree.Keys - (seen + {top.page})) + {top.page};
        match Walk(image, Push(t, top.lower, top.upper, 0) + stack[1..], seen + {top.page})
        case Err(e) => Err(e)
        case Ok(rest) => Ok([t] + rest)
  }

  function After(pages: seq<TreePage>, rest: Result<seq<TreePage>, PageError>): Result<seq<TreePage>, PageError> {
    if rest.Ok? then Ok(pages + rest.value) else rest
  }

  ghost predicate DistinctPages(stack: seq<Pending>) {
    forall i, j :: 0 <= i < j < |stack| ==> stack[i].page != stack[j].page
  }

  ghost predicate Held(stack: seq<Pending>, own: map<int, Pending>) {
    forall e :: e in stack ==> e.page in own && own[e.page] == e
  }

  ghost predicate NoneBelow(stack: seq<Pending>, children: seq<int>) {
    forall e :: e in stack ==> e.page !in children
  }

  /** Page `p` keeps its keys within its bounds and hands the bounds down to its children. */
  ghost predicate Nested(image: Image, own: map<int, Pending>, p: int)
    requires GoodImage(image) && p in own && p in image.tree
  {
    var t := image.tree[p];
    assert ShapedPage(t, p, image.usable);
    own[p].page == p && InBounds(PageKeys(t), own[p].lower, own[p].upper) && Held(Push(t, own[p].lower, own[p].upper, 0), own)
  }

  ghost predicate OneParent(image: Image, own: map<int, Pending>) {
    forall p, q, c :: p in own && q in own && p in image.tree && q in image.tree ==>
      c in image.tree[p].children && c in image.tree[q].children ==> p == q
  }

  ghost predicate Grown(image: Image, stack: seq<Pending>, seen: set<int>, own: map<int, Pending>)
    requires GoodImage(image)
  {
    forall p :: p in own ==> p !in seen && p in image.tree && Nested(image, own, p) && NoneBelow(stack, image.tree[p].children)
  }

  /**
   What is pending stands for the roots of a forest: every page below has one parent, is reached in one way, has the
   bounds that its parent's separators give it, and keeps its keys within them.
   */
  ghost predicate Forest(image: Image, stack: seq<Pending>, seen: set<int>, own: map<int, Pending>)
    requires GoodImage(image)
  {
    DistinctPages(stack) && Held(stack, own) && OneParent(image, own) && Grown(image, stack, seen, own)
  }

  /** The walk may read the first pending page. */
  predicate MayRead(image: Image, stack: seq<Pending>, seen: set<int>)
  {
    && stack != [] && stack[0].page !in seen && stack[0].page in image.tree
    && InBounds(PageKeys(image.tree[stack[0].page]), stack[0].lower, stack[0].upper)
  }

  function Pushed(image: Image, stack: seq<Pending>): (r: seq<Pending>)
    requires GoodImage(image) && stack != [] && stack[0].page in image.tree
    ensures |r| == |image.tree[stack[0].page].children| && forall i :: 0 <= i < |r| ==> r[i].page == image.tree[stack[0].page].children[i]
    ensures DistinctPages(r)
  {
    assert ShapedPage(image.tree[stack[0].page], stack[0].page, image.usable);
    Push(image.tree[stack[0].page], stack[0].lower, stack[0].upper, 0)
  }

  /** Two lists of pending pages that share none. */
  lemma ApartBoth(a: seq<Pending>, b: seq<Pending>)
    ensures DistinctPages(a + b) <==> DistinctPages(a) && DistinctPages(b) && forall x, y :: x in a && y in b ==> x.page != y.page
  {
    var c := a + b;
    assert forall i :: 0 <= i < |a| ==> c[i] == a[i];
    assert forall i :: 0 <= i < |b| ==> c[|a| + i] == b[i];
    if DistinctPages(c) {
      forall i, j | 0 <= i < j < |b| ensures b[i].page != b[j].page { assert c[|a| + i].page != c[|a| + j].page; }
      forall x, y | x in a && y in b ensures x.page != y.page {
        var i :| 0 <= i < |a| && a[i] == x;
        var j :| 0 <= j < |b| && b[j] == y;
        assert c[i].page != c[|a| + j].page;
      }
    }
    if DistinctPages(a) && DistinctPages(b) && forall x, y :: x in a && y in b ==> x.page != y.page {
      forall i, j | 0 <= i < j < |c| ensures c[i].page != c[j].page {
        if i < |a| { assert a[i] in a; } else { assert b[i - |a|].page != b[j - |a|].page; }
        if j >= |a| { assert b[j - |a|] in b; }
      }
    }
  }

  lemma PushedHeld(image: Image, stack: seq<Pending>, own: map<int, Pending>)
    requires GoodImage(image) && stack != [] && stack[0].page in image.tree && stack[0].page in own && own[stack[0].page] == stack[0]
    ensures Nested(image, own, stack[0].page) <==>
      InBounds(PageKeys(image.tree[stack[0].page]), stack[0].lower, stack[0].upper) && Held(Pushed(image, stack), own)
  {
    hide InBounds, PageKeys, Held, Push;
  }

  lemma ChildrenHeld(image: Image, own: map<int, Pending>, q: int)
    requires GoodImage(image) && q in own && q in image.tree && Nested(image, own, q)
    ensures forall c :: c in image.tree[q].children ==> c in own
  {
    var stack := [own[q]];
    PushedHeld(image, stack, own);
    PushedCovers(image, stack);
    hide Nested, Pushed, InBounds, PageKeys;
  }

  lemma PushedCovers(image: Image, stack: seq<Pending>)
    requires GoodImage(image) && stack != [] && stack[0].page in image.tree
    ensures forall e :: e in Pushed(image, stack) ==> e.page in image.tree[stack[0].page].children
    ensures forall c :: c in image.tree[stack[0].page].children ==> exists e :: e in Pushed(image, stack) && e.page == c
  {
    var pushed, children := Pushed(image, stack), image.tree[stack[0].page].children;
    hide Pushed, GoodImage;
    forall c | c in children ensures exists e :: e in pushed && e.page == c {
      var i :| 0 <= i < |children| && children[i] == c;
      assert pushed[i] in pushed;
    }
  }

  lemma KeptNested(image: Image, own: map<int, Pending>, p: int, q: int)
    requires GoodImage(image) && q in own && q != p && q in image.tree && Nested(image, own, q) && p !in image.tree[q].children
    ensures Nested(image, own - {p}, q)
  {
    PushedHeld(image, [own[q]], own);
    PushedHeld(image, [own[q]], own - {p});
    PushedCovers(image, [own[q]]);
    hide Nested, Pushed, InBounds, PageKeys;
  }

  lemma MoreNested(image: Image, own: map<int, Pending>, e: Pending, q: int)
    requires GoodImage(image) && e.page !in own && q in own && q in image.tree && Nested(image, own, q)
    ensures Nested(image, own[e.page := e], q)
  {
    PushedHeld(image, [own[q]], own);
    PushedHeld(image, [own[q]], own[e.page := e]);
    hide Nested, Pushed, InBounds, PageKeys;
  }

  /** The forest below without the page that is read next. */
  lemma ForestStep(image: Image, stack: seq<Pending>, seen: set<int>, own: map<int, Pending>)
    requires GoodImage(image) && Forest(image, stack, seen, own) && stack != []
    ensures MayRead(image, stack, seen)
    ensures Forest(image, Pushed(image, stack) + stack[1..], seen + {stack[0].page}, own - {stack[0].page})
  {
    hide GoodImage, DistinctPages, Pushed, InBounds, PageKeys, Nested;
    var top, rest := stack[0], stack[1..];
    assert stack == [top] + rest && top in [top] && top in stack;
    assert forall e :: e in rest ==> e in stack;
    PushedHeld(image, stack, own);
    PushedCovers(image, stack);
    var pushed := Pushed(image, stack);
    ApartBoth([top], rest);
    ApartBoth(pushed, rest);
    forall q | q in own - {top.page} ensures Nested(image, own - {top.page}, q) && NoneBelow(pushed + rest, image.tree[q].children) {
      KeptNested(image, own, top.page, q);
    }
  }

  /** Conversely, a page put back above its children. */
  lemma ForestAbove(image: Image, stack: seq<Pending>, seen: set<int>, left: map<int, Pending>)
    requires GoodImage(image) && MayRead(image, stack, seen)
    requires Forest(image, Pushed(image, stack) + stack[1..], seen + {stack[0].page}, left)
    ensures Forest(image, stack, seen, left[stack[0].page := stack[0]])
  {
    hide GoodImage, DistinctPages, Pushed, InBounds, PageKeys, Nested;
    var top, rest := stack[0], stack[1..];
    var p, pushed, own := top.page, Pushed(image, stack), left[top.page := top];
    assert stack == [top] + rest && p !in left;
    ApartBoth([top], rest);
    ApartBoth(pushed, rest);
    ApartOne(top);
    assert forall e :: e in pushed || e in rest ==> e in pushed + rest;
    PushedCovers(image, stack);
    PushedHeld(image, stack, own);
    forall q | q in own ensures Nested(image, own, q) && NoneBelow(stack, image.tree[q].children) {
      if q != p {
        MoreNested(image, left, top, q);
        ChildrenHeld(image, left, q);
      }
    }
  }

  lemma ApartOne(e: Pending)
    ensures DistinctPages([e])
  {}

  lemma WalkUnfolds(image: Image, stack: seq<Pending>, seen: set<int>)
    requires GoodImage(image) && stack != []
    ensures MayRead(image, stack, seen) ==>
      |image.tree.Keys - (seen + {stack[0].page})| < |image.tree.Keys - seen|
      && (Walk(image, stack, seen).Ok? <==> Walk(image, Pushed(image, stack) + stack[1..], seen + {stack[0].page}).Ok?)
    ensures !MayRead(image, stack, seen) ==> Walk(image, stack, seen).Err?
  {
    var p := stack[0].page;
    assert MayRead(image, stack, seen) ==> image.tree.Keys - seen == (image.tree.Keys - (seen + {p})) + {p};
  }

  /** The walk accepts exactly the images in which a tree hangs from each pending page. */
  lemma {:induction false} WalkAccepts(image: Image, stack: seq<Pending>, seen: set<int>)
    requires GoodImage(image)
    ensures Walk(image, stack, seen).Ok? <==> exists own :: Forest(image, stack, seen, own)
    decreases |image.tree.Keys - seen|
  {
    if stack == [] {
      assert Forest(image, [], seen, map[]);
    } else {
      WalkUnfolds(image, stack, seen);
      if own :| Forest(image, stack, seen, own) { ForestStep(image, stack, seen, own); }
      if MayRead(image, stack, seen) {
        hide Forest, Walk, InBounds, PageKeys, Pushed;
        var more := Pushed(image, stack) + stack[1..];
        WalkAccepts(image, more, seen + {stack[0].page});
        if left :| Forest(image, more, seen + {stack[0].page}, left) { ForestAbove(image, stack, seen, left); }
      }
    }
  }

  /** A whole tree hangs from the root, and each page in it keeps its keys within what its ancestors' separators allow. */
  ghost predicate TreeBelow(image: Image, root: int)
    requires GoodImage(image)
  {
    exists own :: Forest(image, [Pending(root, None, None)], {}, own)
  }

  /** The depth-first walk: every reachable page once, parents first, rows in strictly ascending order. */
  method TreePages(image: Image, root: int) returns (r: Result<seq<TreePage>, PageError>)
    requires GoodImage(image)
    ensures r == Walk(image, [Pending(root, None, None)], {}) && (r.Ok? <==> TreeBelow(image, root))
    ensures r.Ok? ==> Visited(image, r.value) && Increasing(RowIds(r.value))
    ensures r.Ok? ==> root in Numbers(r.value) && Spanning(image, root, Numbers(r.value), [])
  {
    hide Walk, After, Forest, TreeBelow, WalkState, Spanning, Increasing, Visited, Numbers, RowIds;
    var stack := [Pending(root, None, None)];
    var seen: set<int> := {};
    var pages: seq<TreePage> := [];
    WalkStarts(image, root);
    while stack != []
      invariant WalkState(image, root, seen, stack, pages)
      invariant Walk(image, [Pending(root, None, None)], {}) == After(pages, Walk(image, stack, seen))
      decreases image.pageCount - |seen|
    {
      var top := stack[0];
      WalkOn(image, stack, seen, pages);
      if top.page in seen || top.page !in image.tree { return Err(PageUnavailable); }
      var t := image.tree[top.page];
      if !InBounds(PageKeys(t), top.lower, top.upper) { return Err(PageUnavailable); }
      WalkStep(image, root, seen, stack, pages);
      WalkRoom(image, root, seen, stack, pages);
      stack := Push(t, top.lower, top.upper, 0) + stack[1..];
      seen := seen + {top.page};
      pages := pages + [t];
    }
    WalkEnds(image, seen, pages);
    WalkDone(image, root, seen, pages);
    return Ok(pages);
  }

  lemma WalkStarts(image: Image, root: int)
    requires GoodImage(image)
    ensures var stack := [Pending(root, None, None)];
            && WalkState(image, root, {}, stack, []) && Walk(image, stack, {}) == After([], Walk(image, stack, {}))
            && (Walk(image, stack, {}).Ok? <==> TreeBelow(image, root))
  {
    var stack := [Pending(root, None, None)];
    assert stack[0] in stack;
    AfterNone(Walk(image, stack, {}));
    WalkAccepts(image, stack, {});
  }

  /** A page that is read for the first time is one of the image's. */
  lemma WalkRoom(image: Image, root: int, seen: set<int>, stack: seq<Pending>, pages: seq<TreePage>)
    requires GoodImage(image) && WalkState(image, root, seen, stack, pages) && stack != []
    requires stack[0].page !in seen && stack[0].page in image.tree
    ensures |seen| < |seen + {stack[0].page}| <= image.pageCount
  {
    PagesCounted(image, seen + {stack[0].page});
  }

  lemma WalkDone(image: Image, root: int, seen: set<int>, pages: seq<TreePage>)
    requires WalkState(image, root, seen, [], pages)
    ensures Visited(image, pages) && Increasing(RowIds(pages)) && root in Numbers(pages) && Spanning(image, root, Numbers(pages), [])
  {
  }

  lemma AfterNone(r: Result<seq<TreePage>, PageError>)
    ensures After([], r) == r
  {
    if r.Ok? { assert [] + r.value == r.value; }
  }

  lemma WalkEnds(image: Image, seen: set<int>, pages: seq<TreePage>)
    requires GoodImage(image)
    ensures After(pages, Walk(image, [], seen)) == Ok(pages)
  {
    assert pages + [] == pages;
  }

  /** One page of the walk. */
  lemma WalkOn(image: Image, stack: seq<Pending>, seen: set<int>, pages: seq<TreePage>)
    requires GoodImage(image) && stack != []
    ensures MayRead(image, stack, seen) ==>
      var t := image.tree[stack[0].page];
      After(pages, Walk(image, stack, seen))
      == After(pages + [t], Walk(image, Pushed(image, stack) + stack[1..], seen + {stack[0].page}))
    ensures !MayRead(image, stack, seen) ==> After(pages, Walk(image, stack, seen)) == Err(PageUnavailable)
  {
    if MayRead(image, stack, seen) {
      var rest := Walk(image, Pushed(image, stack) + stack[1..], seen + {stack[0].page});
      if rest.Ok? { assert pages + ([image.tree[stack[0].page]] + rest.value) == pages + [image.tree[stack[0].page]] + rest.value; }
    }
  }

  lemma NumbersMore(pages: seq<TreePage>, t: TreePage)
    ensures Numbers(pages + [t]) == Numbers(pages) + {t.number}
  {
    var more := pages + [t];
    assert more[|pages|] == t && forall i :: 0 <= i < |pages| ==> more[i] == pages[i];
  }

  lemma {:induction false} Span(image: Image, root: int, seen: set<int>, stack: seq<Pending>, t: TreePage, pushed: seq<Pending>)
    requires Spanning(image, root, seen, stack) && stack != [] && stack[0].page !in seen
    requires stack[0].page in image.tree && t == image.tree[stack[0].page]
    requires |pushed| == |t.children| && forall i :: 0 <= i < |pushed| ==> pushed[i].page == t.children[i]
    ensures Spanning(image, root, seen + {stack[0].page}, pushed + stack[1..])
  {
    var page := stack[0].page;
    var more, rest := pushed + stack[1..], stack[1..];
    var wider := seen + {page};
    assert forall e :: e in stack <==> e == stack[0] || e in rest;
    forall p, c | p in wider && c in image.tree[p].children ensures c in wider || exists e :: e in more && e.page == c {
      if p == page {
        var i :| 0 <= i < |t.children| && t.children[i] == c;
        assert pushed[i] in more;
      } else if c !in seen {
        var e :| e in stack && e.page == c;
        assert e == stack[0] || e in more;
      }
    }
    forall e | e in more ensures e.page == root || exists p :: p in wider && e.page in image.tree[p].children {
      if e in pushed {
        var i :| 0 <= i < |pushed| && pushed[i] == e;
        assert page in wider && e.page in image.tree[page].children;
      } else {
        assert e in stack;
        if e.page != root { var p :| p in seen && e.page in image.tree[p].children; assert p in wider; }
      }
    }
    assert stack[0] in stack;
    forall p | p in wider ensures p == root || exists q :: q in wider && p in image.tree[q].children {
      if p in seen { if p != root { var q :| q in seen && p in image.tree[q].children; assert q in wider; } }
      else if p != root { var q :| q in seen && p in image.tree[q].children; assert q in wider; }
    }
  }

  // ---- Rows ----

  datatype RowLocation = RowLocation(page: int, rowId: int, overflow: seq<int>)

  ghost predicate Locates(image: Image, l: RowLocation)
    requires 480 <= image.usable
  {
    && l.page in image.tree
    && exists j :: 0 <= j < |image.tree[l.page].cells|
         && image.tree[l.page].cells[j].rowId == l.rowId && Chain(image, image.tree[l.page].cells[j], l.page) == Ok(l.overflow)
  }

  function LocatedIds(rows: seq<RowLocation>): seq<int> {
    seq(|rows|, i requires 0 <= i < |rows| => rows[i].rowId)
  }

  function AsSet(pages: seq<int>): set<int> {
    set i | 0 <= i < |pages| :: pages[i]
  }

  /** `taken` holds the tree pages read so far and the overflow pages of `rows`, none of them twice. */
  ghost predicate Owned(image: Image, pages: seq<TreePage>, rows: seq<RowLocation>, taken: set<int>)
    requires 480 <= image.usable
  {
    && (forall i :: 0 <= i < |rows| ==> Locates(image, rows[i]))
    && (forall i :: 0 <= i < |rows| ==> AsSet(rows[i].overflow) <= taken && AsSet(rows[i].overflow) !! Numbers(pages))
    && (forall i, j :: 0 <= i < j < |rows| ==> AsSet(rows[i].overflow) !! AsSet(rows[j].overflow))
    && Numbers(pages) <= taken
  }

  lemma OwnPage(image: Image, pages: seq<TreePage>, rows: seq<RowLocation>, taken: set<int>, t: TreePage)
    requires 480 <= image.usable && Owned(image, pages, rows, taken) && t.number !in taken
    ensures Owned(image, pages + [t], rows, taken + {t.number})
  {
    NumbersMore(pages, t);
  }

  lemma OwnRow(image: Image, pages: seq<TreePage>, rows: seq<RowLocation>, taken: set<int>, l: RowLocation)
    requires 480 <= image.usable && Owned(image, pages, rows, taken) && Locates(image, l) && taken !! AsSet(l.overflow)
    ensures Owned(image, pages, rows + [l], taken + AsSet(l.overflow))
  {
  }

  // ---- Which tables are accepted ----

  predicate IsCell(pages: seq<TreePage>, i: int, j: int) {
    0 <= i < |pages| && 0 <= j < |pages[i].cells|
  }

  function ChainAt(image: Image, pages: seq<TreePage>, i: int, j: int): Result<seq<int>, PageError>
    requires 480 <= image.usable && IsCell(pages, i, j)
  {
    Chain(image, pages[i].cells[j], pages[i].number)
  }

  /** The overflow pages of a cell; none, if its chain cannot be read. */
  function Spill(image: Image, pages: seq<TreePage>, i: int, j: int): set<int>
    requires 480 <= image.usable && IsCell(pages, i, j)
  {
    if ChainAt(image, pages, i, j).Ok? then AsSet(ChainAt(image, pages, i, j).value) else {}
  }

  /** Every chain of the table can be read, and no page serves two cells or is also a page of the tree. */
  ghost predicate Private(image: Image, pages: seq<TreePage>)
    requires 480 <= image.usable
  {
    && (forall i, j :: IsCell(pages, i, j) ==> ChainAt(image, pages, i, j).Ok? && Spill(image, pages, i, j) !! Numbers(pages))
    && (forall i, j, k, l :: IsCell(pages, i, j) && IsCell(pages, k, l) && (i, j) != (k, l) ==>
          Spill(image, pages, i, j) !! Spill(image, pages, k, l))
  }

  /** A cell among the first `m` of page `v - 1` or on an earlier page. */
  predicate Early(pages: seq<TreePage>, v: nat, m: nat, i: int, j: int) {
    IsCell(pages, i, j) && (i < v - 1 || (i == v - 1 && j < m))
  }

  /** The same for the first `v` pages and the early cells; `taken` is exactly their pages. */
  ghost predicate PrivateSoFar(image: Image, pages: seq<TreePage>, v: nat, m: nat, taken: set<int>)
    requires 480 <= image.usable && v <= |pages|
  {
    && (forall i, j :: Early(pages, v, m, i, j) ==>
          ChainAt(image, pages, i, j).Ok? && Spill(image, pages, i, j) <= taken && Spill(image, pages, i, j) !! Numbers(pages[..v]))
    && (forall i, j, k, l :: Early(pages, v, m, i, j) && Early(pages, v, m, k, l) && (i, j) != (k, l) ==>
          Spill(image, pages, i, j) !! Spill(image, pages, k, l))
    && (forall x :: x in taken ==> x in Numbers(pages[..v]) || exists i, j :: Early(pages, v, m, i, j) && x in Spill(image, pages, i, j))
  }

  ghost predicate AllEarly(pages: seq<TreePage>, v: nat, m: nat)
    requires v <= |pages|
  {
    v > 0 ==> |pages[v - 1].cells| <= m
  }

  /** The next tree page is refused exactly if it is taken, and then the table is not private. */
  lemma PageTaken(image: Image, pages: seq<TreePage>, v: nat, m: nat, taken: set<int>)
    requires 480 <= image.usable && v < |pages| && Visited(image, pages) && PrivateSoFar(image, pages, v, m, taken) && AllEarly(pages, v, m)
    ensures if pages[v].number in taken then !Private(image, pages)
            else PrivateSoFar(image, pages, v + 1, 0, taken + {pages[v].number})
  {
    var t := pages[v];
    assert pages[..v + 1] == pages[..v] + [t];
    NumbersMore(pages[..v], t);
    assert t.number in Numbers(pages) && t.number !in Numbers(pages[..v]);
    assert forall i, j :: Early(pages, v + 1, 0, i, j) <==> Early(pages, v, m, i, j);
    hide Numbers, Spill, ChainAt, Early;
    if t.number in taken {
      var i, j :| Early(pages, v, m, i, j) && t.number in Spill(image, pages, i, j);
      EarlyIsCell(pages, v, m, i, j);
    }
  }

  lemma EarlyIsCell(pages: seq<TreePage>, v: nat, m: nat, i: int, j: int)
    requires Early(pages, v, m, i, j)
    ensures IsCell(pages, i, j)
  {}

  lemma NumbersWithin(pages: seq<TreePage>, v: nat)
    requires v <= |pages|
    ensures Numbers(pages[..v]) <= Numbers(pages)
  {
    forall x | x in Numbers(pages[..v]) ensures x in Numbers(pages) {
      var i :| 0 <= i < v && pages[..v][i].number == x;
      assert pages[i].number == x;
    }
  }

  /** The next cell is refused exactly if its chain cannot be read or is taken, and then the table is not private. */
  lemma CellTaken(image: Image, pages: seq<TreePage>, n: nat, j: nat, taken: set<int>)
    requires 480 <= image.usable && n < |pages| && IsCell(pages, n, j) && PrivateSoFar(image, pages, n + 1, j, taken)
    requires Numbers(pages[..n + 1]) <= taken
    ensures if ChainAt(image, pages, n, j).Err? || !(taken !! Spill(image, pages, n, j)) then !Private(image, pages)
            else PrivateSoFar(image, pages, n + 1, j + 1, taken + Spill(image, pages, n, j))
  {
    NumbersWithin(pages, n + 1);
    forall i, k ensures Early(pages, n + 1, j + 1, i, k) <==> Early(pages, n + 1, j, i, k) || (i, k) == (n, j) {}
    assert !Early(pages, n + 1, j, n, j);
    var own := Spill(image, pages, n, j);
    forall i, k | Early(pages, n + 1, j, i, k) ensures IsCell(pages, i, k) && (i, k) != (n, j) { EarlyIsCell(pages, n + 1, j, i, k); }
    hide Numbers, Spill, ChainAt, Early;
    if ChainAt(image, pages, n, j).Ok? && !(taken !! own) {
      var x := Common(taken, own);
      if x !in Numbers(pages) {
        var i, k := Earlier(image, pages, n + 1, j, taken, x);
        assert !(Spill(image, pages, i, k) !! own);
      }
    }
  }

  lemma Common(a: set<int>, b: set<int>) returns (x: int)
    requires !(a !! b)
    ensures x in a && x in b
  {
    assert (forall y :: y in a ==> y !in b) ==> a !! b;
    x :| x in a && x in b;
  }

  /** The cell that has taken an overflow page. */
  lemma Earlier(image: Image, pages: seq<TreePage>, v: nat, m: nat, taken: set<int>, x: int) returns (i: int, j: int)
    requires 480 <= image.usable && v <= |pages| && PrivateSoFar(image, pages, v, m, taken) && x in taken && x !in Numbers(pages)
    ensures Early(pages, v, m, i, j) && x in Spill(image, pages, i, j)
  {
    NumbersWithin(pages, v);
    hide Numbers, Spill;
    i, j :| Early(pages, v, m, i, j) && x in Spill(image, pages, i, j);
  }

  lemma AllPrivate(image: Image, pages: seq<TreePage>, m: nat, taken: set<int>)
    requires 480 <= image.usable && PrivateSoFar(image, pages, |pages|, m, taken) && AllEarly(pages, |pages|, m)
    ensures Private(image, pages)
  {
    assert pages[..|pages|] == pages;
    forall i, j | IsCell(pages, i, j) ensures Early(pages, |pages|, m, i, j) {}
    hide Numbers, Spill, ChainAt, Early, IsCell;
  }

  /** One cell with its overflow pages, none of them taken before. */
  method CellRow(image: Image, pages: seq<TreePage>, n: nat, j: nat, taken: set<int>) returns (r: Result<RowLocation, PageError>)
    requires GoodImage(image) && n < |pages| && pages[n].number in image.tree && pages[n] == image.tree[pages[n].number]
    requires pages[n].children == [] && IsCell(pages, n, j)
    ensures r.Ok? <==> ChainAt(image, pages, n, j).Ok? && taken !! Spill(image, pages, n, j)
    ensures r.Ok? ==> Locates(image, r.value) && r.value.rowId == pages[n].cells[j].rowId && AsSet(r.value.overflow) == Spill(image, pages, n, j)
  {
    var t := pages[n];
    assert ShapedPage(t, t.number, image.usable);
    var cell := t.cells[j];
    LocalBounds(cell.payload, image.usable);
    var chain := OverflowPages(image, cell, t.number);
    if chain.Err? { return Err(chain.error); }
    if !(taken !! AsSet(chain.value)) { return Err(PageUnavailable); }
    return Ok(RowLocation(t.number, cell.rowId, chain.value));
  }

  /** The rows of one leaf. */
  method LeafRows(image: Image, pages: seq<TreePage>, n: nat, before: seq<RowLocation>, taken: set<int>)
    returns (r: Result<(seq<RowLocation>, set<int>), PageError>)
    requires GoodImage(image) && n < |pages| && pages[n].number in image.tree && pages[n] == image.tree[pages[n].number]
    requires pages[n].children == []
    requires Owned(image, pages[..n + 1], before, taken) && PrivateSoFar(image, pages, n + 1, 0, taken)
    ensures r.Ok? ==> Owned(image, pages[..n + 1], r.value.0, r.value.1)
    ensures r.Ok? ==> LocatedIds(r.value.0) == LocatedIds(before) + PageKeys(pages[n])
    ensures r.Ok? ==> PrivateSoFar(image, pages, n + 1, |pages[n].cells|, r.value.1)
    ensures r.Err? ==> !Private(image, pages)
  {
    var t := pages[n];
    var rows, seen := before, taken;
    assert 480 <= image.usable;
    hide GoodImage, PrivateSoFar, Private, Spill, ChainAt, Locates;
    for j := 0 to |t.cells|
      invariant Owned(image, pages[..n + 1], rows, seen) && PrivateSoFar(image, pages, n + 1, j, seen)
      invariant LocatedIds(rows) == LocatedIds(before) + PageKeys(t)[..j]
    {
      CellTaken(image, pages, n, j, seen);
      var l := CellRow(image, pages, n, j, seen);
      if l.Err? { return Err(l.error); }
      OwnRow(image, pages[..n + 1], rows, seen, l.value);
      assert LocatedIds(rows + [l.value]) == LocatedIds(rows) + [l.value.rowId];
      assert PageKeys(t)[..j + 1] == PageKeys(t)[..j] + [l.value.rowId];
      rows, seen := rows + [l.value], seen + AsSet(l.value.overflow);
    }
    assert PageKeys(t)[..|t.cells|] == PageKeys(t);
    return Ok((rows, seen));
  }

  lemma NothingOwned(image: Image)
    requires 480 <= image.usable
    ensures Owned(image, [], [], {})
  {
  }

  /** One page of the table. */
  method PageRows(image: Image, pages: seq<TreePage>, n: nat, before: seq<RowLocation>, taken: set<int>, ghost m: nat)
    returns (r: Result<(seq<RowLocation>, set<int>), PageError>)
    requires GoodImage(image) && n < |pages| && Visited(image, pages)
    requires Owned(image, pages[..n], before, taken) && LocatedIds(before) == RowIds(pages[..n])
    requires PrivateSoFar(image, pages, n, m, taken) && AllEarly(pages, n, m)
    ensures r.Ok? ==> Owned(image, pages[..n + 1], r.value.0, r.value.1) && LocatedIds(r.value.0) == RowIds(pages[..n + 1])
    ensures r.Ok? ==> PrivateSoFar(image, pages, n + 1, |pages[n].cells|, r.value.1)
    ensures r.Err? ==> !Private(image, pages)
  {
    var t := pages[n];
    assert ShapedPage(t, t.number, image.usable);
    assert t.children != [] ==> t.cells == [];
    assert pages[..n + 1] == pages[..n] + [t] && pages[..n + 1][..n] == pages[..n];
    PageTaken(image, pages, n, m, taken);
    assert 480 <= image.usable && t.number in image.tree && t == image.tree[t.number];
    hide GoodImage, Owned, PrivateSoFar, Private, Visited;
    if t.number in taken { return Err(PageUnavailable); }
    OwnPage(image, pages[..n], before, taken, t);
    if t.children == [] {
      r := LeafRows(image, pages, n, before, taken + {t.number});
    } else {
      r := Ok((before, taken + {t.number}));
    }
  }

  /**
   Every row of the table with its pages: ids strictly ascending, no page used twice. It is refused exactly when no tree
   hangs from the root, a chain cannot be read, or a page would be used twice.
   */
  method Rows(image: Image, root: int) returns (r: Result<seq<RowLocation>, PageError>)
    requires GoodImage(image)
    ensures r.Ok? <==> Walk(image, [Pending(root, None, None)], {}).Ok? && Private(image, Walk(image, [Pending(root, None, None)], {}).value)
    ensures r.Ok? ==>
      var pages := Walk(image, [Pending(root, None, None)], {}).value;
      && Visited(image, pages) && root in Numbers(pages) && Spanning(image, root, Numbers(pages), [])
      && Increasing(LocatedIds(r.value)) && LocatedIds(r.value) == RowIds(pages)
      && exists taken :: Owned(image, pages, r.value, taken)
  {
    assert 480 <= image.usable;
    hide GoodImage, Owned, Spanning, Increasing, Walk, PrivateSoFar, Private;
    var walked := TreePages(image, root);
    if walked.Err? { return Err(walked.error); }
    var pages := walked.value;
    NothingOwned(image);
    NothingPrivate(image, pages);
    var rows: seq<RowLocation> := [];
    var taken: set<int> := {};
    ghost var m: nat := 0;
    for n := 0 to |pages|
      invariant Owned(image, pages[..n], rows, taken) && LocatedIds(rows) == RowIds(pages[..n])
      invariant PrivateSoFar(image, pages, n, m, taken) && AllEarly(pages, n, m)
    {
      var more := PageRows(image, pages, n, rows, taken, m);
      if more.Err? { return Err(more.error); }
      rows, taken := more.value.0, more.value.1;
      m := |pages[n].cells|;
    }
    assert pages[..|pages|] == pages;
    AllPrivate(image, pages, m, taken);
    return Ok(rows);
  }

  lemma NothingPrivate(image: Image, pages: seq<TreePage>)
    requires 480 <= image.usable
    ensures PrivateSoFar(image, pages, 0, 0, {}) && AllEarly(pages, 0, 0)
  {
  }
}
