/** The doubly linked lists of free pages that a root page heads, and what linking a page in at
    the front and unlinking it from anywhere do to them. */
module FreeLists {

  type Ref = nat

  const NULL: Ref := 0xFFFF_FFFF
  const INVALID_SLOT: nat := 0xFFFF

  datatype Record = Record(trx: nat, deleted: bool, data: seq<nat>)

  /** A data page: the free slot number and free links, the links of the list of all pages, the
      count of free records, and the records by slot. */
  datatype Page = Page(slotNo: nat, prevFree: Ref, nextFree: Ref, prev: Ref, next: Ref, numFree: nat,
                       used: map<nat, Record>)

  type Pages = map<Ref, Page>

  ghost predicate NoDup(list: seq<Ref>) {
    forall j, k :: 0 <= j < k < |list| ==> list[j] != list[k]
  }

  function First(list: seq<Ref>): (r: Ref) {
    if list == [] then NULL else list[0]
  }

  ghost predicate FreeNode(page: Page, root: Ref, list: seq<Ref>, k: nat, slot: nat)
    requires k < |list|
  {
    && page.slotNo == slot && page.numFree >= 1
    && page.prevFree == (if k == 0 then root else list[k - 1])
    && page.nextFree == (if k + 1 == |list| then NULL else list[k + 1])
  }

  /** The pages of one free list: linked in both directions from the root page, each page carrying
      the list's slot number and at least one free record. */
  ghost predicate FreeList(pages: Pages, root: Ref, first: Ref, list: seq<Ref>, slot: nat) {
    && first == First(list) && NoDup(list)
    && forall k :: 0 <= k < |list| ==>
         list[k] in pages && list[k] != NULL && FreeNode(pages[list[k]], root, list, k, slot)
  }

  ghost predicate AllNode(page: Page, list: seq<Ref>, k: nat)
    requires k < |list|
  {
    && page.prev == (if k == 0 then NULL else list[k - 1])
    && page.next == (if k + 1 == |list| then NULL else list[k + 1])
  }

  /** The list of all data pages, with its head and tail. */
  ghost predicate AllList(pages: Pages, head: Ref, tail: Ref, list: seq<Ref>) {
    && head == First(list) && tail == (if list == [] then NULL else list[|list| - 1]) && NoDup(list)
    && (forall p :: p in pages <==> p in list)
    && forall k :: 0 <= k < |list| ==> list[k] in pages && list[k] != NULL && AllNode(pages[list[k]], list, k)
  }

  function Total(lists: seq<seq<Ref>>): (n: nat) {
    if lists == [] then 0 else Total(lists[..|lists| - 1]) + |lists[|lists| - 1]|
  }

  lemma {:induction false} TotalAfterUpdate(lists: seq<seq<Ref>>, i: nat, list: seq<Ref>)
    requires i < |lists|
    ensures Total(lists[i := list]) == Total(lists) - |lists[i]| + |list|
  {
    var n := |lists| - 1;
    if i == n {
      assert lists[i := list][..n] == lists[..n];
    } else {
      assert lists[i := list][..n] == lists[..n][i := list];
      TotalAfterUpdate(lists[..n], i, list);
    }
  }

  lemma {:induction false} TotalAfterGrowth(lists: seq<seq<Ref>>, n: nat)
    ensures Total(lists + seq(n, _ => [])) == Total(lists)
    decreases n
  {
    if n == 0 {
      assert lists + seq(n, _ => []) == lists;
    } else {
      var grown := lists + seq(n, _ => []);
      assert grown[..|grown| - 1] == lists + seq(n - 1, _ => []);
      TotalAfterGrowth(lists, n - 1);
    }
  }

  // ------------------------------------------------------------------------------------------
  // Linking in at the front.

  function Pushed(pages: Pages, root: Ref, first: Ref, slot: nat, p: Ref): (pages': Pages)
    requires p in pages && (first != NULL ==> first in pages && first != p)
  {
    var pages1 := if first != NULL then pages[first := pages[first].(prevFree := p)] else pages;
    pages1[p := pages1[p].(prevFree := root, nextFree := first, slotNo := slot)]
  }

  lemma PushKeepsList(pages: Pages, root: Ref, first: Ref, list: seq<Ref>, slot: nat, p: Ref)
    requires FreeList(pages, root, first, list, slot)
    requires p in pages && p !in list && p != NULL && pages[p].numFree >= 1
    ensures first != NULL ==> first in pages && first != p
    ensures FreeList(Pushed(pages, root, first, slot, p), root, p, [p] + list, slot)
  {
    var pages', list' := Pushed(pages, root, first, slot, p), [p] + list;
    forall k | 0 <= k < |list'| ensures list'[k] in pages' && FreeNode(pages'[list'[k]], root, list', k, slot) {
      if k > 0 {
        assert list'[k] == list[k - 1];
      }
    }
  }

  // ------------------------------------------------------------------------------------------
  // Unlinking.

  function Unlinked(pages: Pages, root: Ref, p: Ref): (pages': Pages)
    requires p in pages
    requires var prev, next := pages[p].prevFree, pages[p].nextFree;
             (prev != root ==> prev in pages && prev != p) && (next != NULL ==> next in pages && next != p)
  {
    var prev, next := pages[p].prevFree, pages[p].nextFree;
    var pages1 := if prev != root then pages[prev := pages[prev].(nextFree := next)] else pages;
    var pages2 := if next != NULL then pages1[next := pages1[next].(prevFree := prev)] else pages1;
    pages2[p := pages2[p].(prevFree := NULL, nextFree := NULL)]
  }

  function Removed(list: seq<Ref>, k: nat): (list': seq<Ref>)
    requires k < |list|
  {
    list[..k] + list[k + 1..]
  }

  lemma UnlinkIsDefined(pages: Pages, root: Ref, first: Ref, list: seq<Ref>, slot: nat, k: nat)
    requires FreeList(pages, root, first, list, slot) && k < |list| && root !in pages
    ensures var p := list[k];
            var prev, next := pages[p].prevFree, pages[p].nextFree;
            && (prev == root <==> k == 0) && (next == NULL <==> k + 1 == |list|)
            && (prev != root ==> prev == list[k - 1] && prev in pages && prev != p)
            && (next != NULL ==> next == list[k + 1] && next in pages && next != p)
  {
    assert FreeNode(pages[list[k]], root, list, k, slot);
  }

  lemma RemovedFacts(list: seq<Ref>, k: nat)
    requires NoDup(list) && k < |list|
    ensures NoDup(Removed(list, k))
    ensures forall p :: p in Removed(list, k) <==> p in list && p != list[k]
    ensures First(Removed(list, k)) == if k > 0 then First(list) else if |list| > 1 then list[1] else NULL
  {
    var list' := Removed(list, k);
    forall p | p in list && p != list[k] ensures p in list' {
      var j :| 0 <= j < |list| && list[j] == p;
      assert list'[if j < k then j else j - 1] == p;
    }
  }

  lemma UnlinkedAt(pages: Pages, root: Ref, p: Ref, q: Ref)
    requires p in pages && q in pages && q != p
    requires var prev, next := pages[p].prevFree, pages[p].nextFree;
             (prev != root ==> prev in pages && prev != p) && (next != NULL ==> next in pages && next != p)
    ensures var prev, next := pages[p].prevFree, pages[p].nextFree;
            && q in Unlinked(pages, root, p)
            && var page, page' := pages[q], Unlinked(pages, root, p)[q];
            && page' == page.(prevFree := page'.prevFree, nextFree := page'.nextFree)
            && page'.prevFree == (if q == next && next != NULL then prev else page.prevFree)
            && page'.nextFree == (if q == prev && prev != root then next else page.nextFree)
  {
  }

  lemma UnlinkedNode(pages: Pages, root: Ref, first: Ref, list: seq<Ref>, slot: nat, k: nat, j: nat)
    requires FreeList(pages, root, first, list, slot) && k < |list| && root !in pages && j < |list| && j != k
    ensures var p := list[k];
            var prev, next := pages[p].prevFree, pages[p].nextFree;
            && (prev != root ==> prev in pages && prev != p) && (next != NULL ==> next in pages && next != p)
            && list[j] in pages && list[j] in Unlinked(pages, root, p)
            && FreeNode(Unlinked(pages, root, p)[list[j]], root, Removed(list, k), if j < k then j else j - 1, slot)
  {
    hide Unlinked, NoDup;
    UnlinkIsDefined(pages, root, first, list, slot, k);
    assert FreeNode(pages[list[j]], root, list, j, slot);
    Apart(list, j, k);
    assert list[j] != list[k] && list[j] in pages;
    UnlinkedAt(pages, root, list[k], list[j]);
    NeighboursOf(list, j, k);
    assert FreeNode(pages[list[k]], root, list, k, slot);
    hide FreeList, Removed;
  }

  lemma Apart(list: seq<Ref>, j: nat, k: nat)
    requires NoDup(list) && j < |list| && k < |list| && j != k
    ensures list[j] != list[k]
    ensures k > 0 && list[j] == list[k - 1] ==> j == k - 1
    ensures k + 1 < |list| && list[j] == list[k + 1] ==> j == k + 1
  {
  }

  lemma NeighboursOf(list: seq<Ref>, j: nat, k: nat)
    requires j < |list| && k < |list| && j != k
    ensures var list', j' := Removed(list, k), if j < k then j else j - 1;
            && |list'| == |list| - 1 && j' < |list'|
            && (j' > 0 ==> list'[j' - 1] == if j == k + 1 then list[k - 1] else list[j - 1])
            && (j' + 1 < |list'| ==> list'[j' + 1] == if j + 1 == k then list[k + 1] else list[j + 1])
  {
  }

  lemma UnlinkKeepsList(pages: Pages, root: Ref, first: Ref, list: seq<Ref>, slot: nat, k: nat)
    requires FreeList(pages, root, first, list, slot) && k < |list| && root !in pages
    ensures var p := list[k];
            var prev, next := pages[p].prevFree, pages[p].nextFree;
            && (prev == root <==> k == 0)
            && (prev != root ==> prev in pages && prev != p) && (next != NULL ==> next in pages && next != p)
            && FreeList(Unlinked(pages, root, p), root, if k == 0 then next else first, Removed(list, k), slot)
  {
    hide FreeNode, Unlinked;
    UnlinkIsDefined(pages, root, first, list, slot, k);
    RemovedFacts(list, k);
    var pages', list' := Unlinked(pages, root, list[k]), Removed(list, k);
    forall j | 0 <= j < |list'|
      ensures list'[j] in pages' && list'[j] != NULL && FreeNode(pages'[list'[j]], root, list', j, slot)
    {
      var i := if j < k then j else j + 1;
      assert list'[j] == list[i];
      UnlinkedNode(pages, root, first, list, slot, k, i);
    }
  }

  // ------------------------------------------------------------------------------------------
  // What a change to some pages leaves alone.

  /** The free links of the pages in ps are unchanged, and none of them has lost its last free record. */
  ghost predicate SameLinks(pages: Pages, pages': Pages, ps: seq<Ref>) {
    forall p :: p in ps && p in pages ==>
      && p in pages' && pages'[p].slotNo == pages[p].slotNo && pages'[p].numFree >= 1
      && pages'[p].prevFree == pages[p].prevFree && pages'[p].nextFree == pages[p].nextFree
  }

  lemma SameLinksSameList(pages: Pages, pages': Pages, root: Ref, first: Ref, list: seq<Ref>, slot: nat)
    requires FreeList(pages, root, first, list, slot) && SameLinks(pages, pages', list)
    ensures FreeList(pages', root, first, list, slot)
  {
  }

  lemma SlotsKeepListsApart(pages: Pages, root: Ref, first: Ref, list: seq<Ref>, slot: nat, first': Ref,
                            list': seq<Ref>, slot': nat)
    requires FreeList(pages, root, first, list, slot) && FreeList(pages, root, first', list', slot') && slot != slot'
    ensures forall p :: p in list ==> p !in list'
  {
  }
}
