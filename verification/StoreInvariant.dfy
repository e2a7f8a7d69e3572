/** What the root page and the data pages of one column store keep between mini-transactions,
    and how linking, unlinking, new pages and changed records keep it. */
module StoreInvariant {
  import opened FreeLists

  ghost predicate ListsOk(pages: Pages, root: Ref, slots: seq<Ref>, lists: seq<seq<Ref>>) {
    |slots| == |lists| && forall i :: 0 <= i < |slots| ==> FreeList(pages, root, slots[i], lists[i], i)
  }

  predicate Sized(page: Page, capacity: nat) {
    page.numFree + |page.used| == capacity && forall s :: s in page.used ==> s < capacity
  }

  ghost predicate SizesOk(pages: Pages, capacity: nat) {
    forall p :: p in pages ==> Sized(pages[p], capacity)
  }

  predicate Listed(page: Page) {
    page.prevFree != NULL
  }

  /** Off the free lists a page has no links, and if it has never been on one it holds one record
      only, and that slot is taken. */
  predicate Placed(page: Page, capacity: nat) {
    !Listed(page) ==> page.nextFree == NULL && (page.slotNo == INVALID_SLOT ==> capacity == 1 && page.numFree == 0)
  }

  ghost predicate PlacesOk(pages: Pages, capacity: nat, loose: set<Ref>) {
    forall p :: p in pages && p !in loose ==> Placed(pages[p], capacity)
  }

  /** Whatever has a free link is on the list of its slot number. */
  ghost predicate OnLists(pages: Pages, lists: seq<seq<Ref>>) {
    forall p :: p in pages && Listed(pages[p]) ==> pages[p].slotNo < |lists| && p in lists[pages[p].slotNo]
  }

  /** A page that was on a free list and has been full: its slot number is never reset. */
  predicate Retired(page: Page) {
    !Listed(page) && page.slotNo != INVALID_SLOT
  }

  /** Retired pages stay retired, and get no new record. */
  ghost predicate RetiredStay(pages: Pages, pages': Pages) {
    forall p :: p in pages && Retired(pages[p]) ==>
      p in pages' && Retired(pages'[p]) && pages'[p].used.Keys <= pages[p].used.Keys
  }

  ghost predicate SameRecordsBut(pages: Pages, pages': Pages, p: Ref) {
    forall q :: q in pages && q != p ==>
      q in pages' && pages'[q].used == pages[q].used && pages'[q].numFree == pages[q].numFree
  }

  /** Whether a purge will have to put the page on a free list: asked before the record is freed
      with prePurge, and again afterwards without. */
  predicate NeedsAdd(page: Page, capacity: nat, prePurge: bool)
    requires capacity > 0
  {
    page.slotNo == INVALID_SLOT &&
    (if prePurge && page.numFree < capacity then page.numFree + 1 else page.numFree) * 100 / capacity > 20
  }

  /** If the pre-check says no, the page freed of one record does not need the root page either. */
  lemma PreCheckIsEnough(page: Page, slot: nat, capacity: nat)
    requires capacity > 0 && Sized(page, capacity) && slot in page.used
    ensures var page' := page.(used := page.used - {slot}, numFree := page.numFree + 1);
            NeedsAdd(page', capacity, false) == NeedsAdd(page, capacity, true)
  {
    assert page.used.Keys != {};
  }

  lemma SlotsInRange(pages: Pages, capacity: nat, p: Ref)
    requires SizesOk(pages, capacity) && p in pages
    ensures forall s :: s in pages[p].used ==> s < capacity
  {
  }

  function UpTo(n: nat): (s: set<nat>)
    ensures |s| == n && forall i: nat :: i in s <==> i < n
  {
    if n == 0 then {} else UpTo(n - 1) + {n - 1}
  }

  lemma FreeSlotExists(page: Page, capacity: nat)
    requires Sized(page, capacity) && page.numFree >= 1
    ensures exists s: nat :: s < capacity && s !in page.used
  {
    var free := UpTo(capacity) - page.used.Keys;
    assert UpTo(capacity) == free + page.used.Keys;
    var s :| s in free;
  }

  // ------------------------------------------------------------------------------------------
  // Steps that leave the free links alone.

  /** Page p takes or gives up records; if it is listed it keeps a free one. */
  lemma RecordsChange(pages: Pages, root: Ref, slots: seq<Ref>, lists: seq<seq<Ref>>, p: Ref, page': Page)
    requires p in pages && ListsOk(pages, root, slots, lists) && OnLists(pages, lists)
    requires page' == pages[p].(numFree := page'.numFree, used := page'.used) &&
             (Listed(pages[p]) ==> page'.numFree >= 1)
    requires root != NULL
    ensures ListsOk(pages[p := page'], root, slots, lists) && OnLists(pages[p := page'], lists)
  {
    var pages' := pages[p := page'];
    forall i | 0 <= i < |slots| ensures FreeList(pages', root, slots[i], lists[i], i) {
      assert FreeList(pages, root, slots[i], lists[i], i);
      if p in lists[i] {
        MemberIsListed(pages, root, slots[i], lists[i], i, p);
      }
      SameLinksHere(pages, pages', root, slots[i], lists[i], i, p);
      SameLinksSameList(pages, pages', root, slots[i], lists[i], i);
    }
  }

  lemma MemberIsListed(pages: Pages, root: Ref, first: Ref, list: seq<Ref>, slot: nat, p: Ref)
    requires FreeList(pages, root, first, list, slot) && p in list && root != NULL
    ensures p in pages && Listed(pages[p]) && pages[p].slotNo == slot && pages[p].numFree >= 1
  {
    var k :| 0 <= k < |list| && list[k] == p;
    assert FreeNode(pages[list[k]], root, list, k, slot);
  }

  lemma SameLinksHere(pages: Pages, pages': Pages, root: Ref, first: Ref, list: seq<Ref>, slot: nat, p: Ref)
    requires FreeList(pages, root, first, list, slot) && p in pages && p in pages' && pages' == pages[p := pages'[p]]
    requires pages'[p] == pages[p].(numFree := pages'[p].numFree, used := pages'[p].used)
    requires p in list ==> pages'[p].numFree >= 1
    ensures SameLinks(pages, pages', list)
  {
    forall q | q in list && q in pages ensures pages[q].numFree >= 1 {
      var k :| 0 <= k < |list| && list[k] == q;
      assert FreeNode(pages[list[k]], root, list, k, slot);
    }
  }

  // ------------------------------------------------------------------------------------------
  // Linking a page in and unlinking it, with every other list in view.

  lemma AddsToFront(pages: Pages, root: Ref, slots: seq<Ref>, lists: seq<seq<Ref>>, p: Ref, slot: nat)
    requires ListsOk(pages, root, slots, lists) && OnLists(pages, lists) && root != NULL
    requires slot < |slots| && p in pages && p != NULL && !Listed(pages[p]) && pages[p].numFree >= 1
    ensures slots[slot] != NULL ==> slots[slot] in pages && slots[slot] != p
    ensures var pages', lists' := Pushed(pages, root, slots[slot], slot, p), lists[slot := [p] + lists[slot]];
            ListsOk(pages', root, slots[slot := p], lists') && OnLists(pages', lists')
  {
    var first := slots[slot];
    assert FreeList(pages, root, first, lists[slot], slot);
    NotOnAnyList(pages, root, slots, lists, p);
    PushKeepsList(pages, root, first, lists[slot], slot, p);
    var pages', slots', lists' := Pushed(pages, root, first, slot, p), slots[slot := p],
                                  lists[slot := [p] + lists[slot]];
    forall i | 0 <= i < |slots| && i != slot ensures FreeList(pages', root, slots'[i], lists'[i], i) {
      OtherListStays(pages, pages', root, slots, lists, slot, i, p);
    }
    PushedStayListed(pages, root, slots, lists, p, slot);
  }

  lemma PushedStayListed(pages: Pages, root: Ref, slots: seq<Ref>, lists: seq<seq<Ref>>, p: Ref, slot: nat)
    requires OnLists(pages, lists) && slot < |slots| && |slots| == |lists| && p in pages && p != NULL
    requires slots[slot] != NULL ==> slots[slot] in pages && slots[slot] != p && pages[slots[slot]].prevFree != NULL
    ensures OnLists(Pushed(pages, root, slots[slot], slot, p), lists[slot := [p] + lists[slot]])
  {
  }

  lemma NotOnAnyList(pages: Pages, root: Ref, slots: seq<Ref>, lists: seq<seq<Ref>>, p: Ref)
    requires ListsOk(pages, root, slots, lists) && root != NULL && p in pages && !Listed(pages[p])
    ensures forall i :: 0 <= i < |lists| ==> p !in lists[i]
  {
    forall i | 0 <= i < |lists| ensures p !in lists[i] {
      if p in lists[i] {
        MemberIsListed(pages, root, slots[i], lists[i], i, p);
      }
    }
  }

  /** Only p and pages on list slot have changed, so list i has not. */
  lemma OtherListStays(pages: Pages, pages': Pages, root: Ref, slots: seq<Ref>, lists: seq<seq<Ref>>, slot: nat, i: nat,
                       p: Ref)
    requires ListsOk(pages, root, slots, lists) && slot < |slots| && i < |slots| && i != slot && root != NULL
    requires pages.Keys <= pages'.Keys
    requires forall q :: q in pages && q != p && q !in lists[slot] ==> pages'[q] == pages[q]
    requires p !in lists[i]
    ensures FreeList(pages', root, slots[i], lists[i], i)
  {
    SlotsKeepListsApart(pages, root, slots[slot], lists[slot], slot, slots[i], lists[i], i);
    forall q | q in lists[i] && q in pages ensures pages'[q] == pages[q] && pages[q].numFree >= 1 {
      MemberIsListed(pages, root, slots[i], lists[i], i, q);
    }
    SameLinksSameList(pages, pages', root, slots[i], lists[i], i);
  }

  lemma Unlinks(pages: Pages, root: Ref, slots: seq<Ref>, lists: seq<seq<Ref>>, p: Ref, k: nat)
    requires ListsOk(pages, root, slots, lists) && OnLists(pages, lists) && root != NULL && root !in pages
    requires p in pages && pages[p].slotNo < |lists| && k < |lists[pages[p].slotNo]| && lists[pages[p].slotNo][k] == p
    ensures var prev, next, slot := pages[p].prevFree, pages[p].nextFree, pages[p].slotNo;
            && (prev != root ==> prev in pages && prev != p) && (next != NULL ==> next in pages && next != p)
            && var pages', slots' := Unlinked(pages, root, p), if prev == root then slots[slot := next] else slots;
            && ListsOk(pages', root, slots', lists[slot := Removed(lists[slot], k)])
            && OnLists(pages', lists[slot := Removed(lists[slot], k)])
            && p in pages' && !Listed(pages'[p])
  {
    var prev, next, slot := pages[p].prevFree, pages[p].nextFree, pages[p].slotNo;
    assert FreeList(pages, root, slots[slot], lists[slot], slot);
    UnlinkKeepsList(pages, root, slots[slot], lists[slot], slot, k);
    UnlinkIsDefined(pages, root, slots[slot], lists[slot], slot, k);
    var pages', slots', lists' := Unlinked(pages, root, p), if prev == root then slots[slot := next] else slots,
                                  lists[slot := Removed(lists[slot], k)];
    forall i | 0 <= i < |slots| && i != slot ensures FreeList(pages', root, slots'[i], lists'[i], i) {
      SlotsKeepListsApart(pages, root, slots[slot], lists[slot], slot, slots[i], lists[i], i);
      OtherListStays(pages, pages', root, slots, lists, slot, i, p);
    }
    RemovedFacts(lists[slot], k);
    UnlinkedStayListed(pages, root, lists, p, k);
  }

  lemma UnlinkedStayListed(pages: Pages, root: Ref, lists: seq<seq<Ref>>, p: Ref, k: nat)
    requires OnLists(pages, lists) && p in pages && pages[p].slotNo < |lists|
    requires var prev, next := pages[p].prevFree, pages[p].nextFree;
             && prev != NULL && (prev != root ==> prev in pages && prev != p && Listed(pages[prev]))
             && (next != NULL ==> next in pages && next != p && Listed(pages[next]))
    requires k < |lists[pages[p].slotNo]| && lists[pages[p].slotNo][k] == p
    requires forall q :: q in Removed(lists[pages[p].slotNo], k) <==> q in lists[pages[p].slotNo] && q != p
    ensures OnLists(Unlinked(pages, root, p), lists[pages[p].slotNo := Removed(lists[pages[p].slotNo], k)])
  {
    hide Removed;
  }

  /** A page has a free link exactly when it is on the list of its slot number, and on no other. */
  lemma ListedIffOnList(pages: Pages, root: Ref, slots: seq<Ref>, lists: seq<seq<Ref>>, p: Ref, slot: nat)
    requires ListsOk(pages, root, slots, lists) && OnLists(pages, lists) && root != NULL && p in pages && slot < |lists|
    ensures p in lists[slot] <==> Listed(pages[p]) && pages[p].slotNo == slot
  {
    if p in lists[slot] {
      MemberIsListed(pages, root, slots[slot], lists[slot], slot, p);
    }
  }

  // ------------------------------------------------------------------------------------------
  // More slots, and more pages.

  lemma EmptyListsAdded(pages: Pages, root: Ref, slots: seq<Ref>, lists: seq<seq<Ref>>, n: nat)
    requires ListsOk(pages, root, slots, lists) && OnLists(pages, lists)
    ensures ListsOk(pages, root, slots + seq(n, _ => NULL), lists + seq(n, _ => []))
    ensures OnLists(pages, lists + seq(n, _ => []))
  {
    var slots', lists' := slots + seq(n, _ => NULL), lists + seq(n, _ => []);
    forall i | 0 <= i < |slots'| ensures FreeList(pages, root, slots'[i], lists'[i], i) {
      if i < |slots| {
        assert FreeList(pages, root, slots[i], lists[i], i);
      }
    }
  }

  function WithNewPage(pages: Pages, head: Ref, added: Ref, page: Page): (pages': Pages)
    requires head != NULL ==> head in pages
  {
    var pages1 := if head != NULL then pages[head := pages[head].(prev := added)] else pages;
    pages1[added := page]
  }

  lemma NewPageIsFirst(pages: Pages, head: Ref, tail: Ref, all: seq<Ref>, added: Ref, page: Page)
    requires AllList(pages, head, tail, all) && added !in pages && added != NULL && page.prev == NULL &&
             page.next == head
    ensures head != NULL ==> head in pages
    ensures AllList(WithNewPage(pages, head, added, page), added, if head == NULL then added else tail, [added] + all)
  {
    hide AllNode;
    var pages', all' := WithNewPage(pages, head, added, page), [added] + all;
    forall k | 0 <= k < |all'| ensures all'[k] in pages' && all'[k] != NULL && AllNode(pages'[all'[k]], all', k) {
      if k == 0 {
        NewPageFirst(pages, head, tail, all, added, page);
      } else {
        NewPageNode(pages, head, tail, all, added, page, k - 1);
      }
    }
    forall p | p in pages' ensures p in all' {
      if p != added {
        assert p in all;
      }
    }
  }

  lemma NewPageFirst(pages: Pages, head: Ref, tail: Ref, all: seq<Ref>, added: Ref, page: Page)
    requires AllList(pages, head, tail, all) && added !in pages && page.prev == NULL && page.next == head
    ensures head != NULL ==> head in pages
    ensures AllNode(WithNewPage(pages, head, added, page)[added], [added] + all, 0)
  {
  }

  lemma NewPageNode(pages: Pages, head: Ref, tail: Ref, all: seq<Ref>, added: Ref, page: Page, k: nat)
    requires AllList(pages, head, tail, all) && added !in pages && k < |all|
    ensures head != NULL ==> head in pages
    ensures var pages' := WithNewPage(pages, head, added, page);
            all[k] in pages' && all[k] != added && all[k] != NULL && AllNode(pages'[all[k]], [added] + all, k + 1)
  {
    hide AllList, WithNewPage;
    AllNodeAt(pages, head, tail, all, k);
    NewPageLinks(pages, head, added, page, all[k]);
    var all' := [added] + all;
    assert all'[k + 1] == all[k] && all'[k] == (if k == 0 then added else all[k - 1]);
    assert k + 1 < |all| ==> all'[k + 2] == all[k + 1];
  }

  lemma AllNodeAt(pages: Pages, head: Ref, tail: Ref, all: seq<Ref>, k: nat)
    requires AllList(pages, head, tail, all) && k < |all|
    ensures all[k] in pages && all[k] != NULL && AllNode(pages[all[k]], all, k)
    ensures head == all[0] && (all[k] == head <==> k == 0) && head in pages
  {
    hide AllNode;
  }

  lemma NewPageLinks(pages: Pages, head: Ref, added: Ref, page: Page, p: Ref)
    requires p in pages && added !in pages && head in pages
    ensures p in WithNewPage(pages, head, added, page)
    ensures WithNewPage(pages, head, added, page)[p] ==
            if p == head && head != NULL then pages[p].(prev := added) else pages[p]
  {
  }

  lemma SameNumber(pages: Pages, root: Ref, slots: seq<Ref>, lists: seq<seq<Ref>>)
    requires ListsOk(pages, root, slots, lists)
    ensures |slots| == |lists|
  {
  }

  lemma NewPageSparesLists(pages: Pages, root: Ref, slots: seq<Ref>, lists: seq<seq<Ref>>, head: Ref, added: Ref,
                           page: Page)
    requires ListsOk(pages, root, slots, lists) && OnLists(pages, lists) && root != NULL
    requires (head != NULL ==> head in pages) && added !in pages && !Listed(page)
    ensures ListsOk(WithNewPage(pages, head, added, page), root, slots, lists)
    ensures OnLists(WithNewPage(pages, head, added, page), lists)
  {
    var pages' := WithNewPage(pages, head, added, page);
    forall i | 0 <= i < |slots| ensures FreeList(pages', root, slots[i], lists[i], i) {
      forall q | q in lists[i] && q in pages ensures pages[q].numFree >= 1 {
        MemberIsListed(pages, root, slots[i], lists[i], i, q);
      }
      SameLinksSameList(pages, pages', root, slots[i], lists[i], i);
    }
  }

  /** The list of all pages depends on its own links only. */
  lemma SameAllList(pages: Pages, pages': Pages, head: Ref, tail: Ref, all: seq<Ref>)
    requires AllList(pages, head, tail, all) && pages'.Keys == pages.Keys
    requires forall p :: p in pages ==> pages'[p].prev == pages[p].prev && pages'[p].next == pages[p].next
    ensures AllList(pages', head, tail, all)
  {
    forall k | 0 <= k < |all| ensures all[k] in pages' && AllNode(pages'[all[k]], all, k) {
      assert AllNode(pages[all[k]], all, k);
    }
  }

  lemma PagesAreNotNull(pages: Pages, head: Ref, tail: Ref, all: seq<Ref>, p: Ref)
    requires AllList(pages, head, tail, all) && p in pages
    ensures p != NULL
  {
  }

  lemma PlaceOnList(pages: Pages, lists: seq<seq<Ref>>, p: Ref) returns (k: nat)
    requires OnLists(pages, lists) && p in pages && Listed(pages[p])
    ensures pages[p].slotNo < |lists| && k < |lists[pages[p].slotNo]| && lists[pages[p].slotNo][k] == p
  {
    k :| 0 <= k < |lists[pages[p].slotNo]| && lists[pages[p].slotNo][k] == p;
  }

  lemma LinkedPagesAreListed(pages: Pages, root: Ref, slots: seq<Ref>, lists: seq<seq<Ref>>, p: Ref, k: nat)
    requires ListsOk(pages, root, slots, lists) && root != NULL && root !in pages
    requires p in pages && pages[p].slotNo < |lists| && k < |lists[pages[p].slotNo]| && lists[pages[p].slotNo][k] == p
    ensures var prev, next := pages[p].prevFree, pages[p].nextFree;
            && (prev != root ==> prev in pages && Listed(pages[prev])) &&
               (next != NULL ==> next in pages && Listed(pages[next]))
  {
    var slot := pages[p].slotNo;
    UnlinkIsDefined(pages, root, slots[slot], lists[slot], slot, k);
    if k > 0 {
      MemberIsListed(pages, root, slots[slot], lists[slot], slot, lists[slot][k - 1]);
    }
    if k + 1 < |lists[slot]| {
      MemberIsListed(pages, root, slots[slot], lists[slot], slot, lists[slot][k + 1]);
    }
  }

  /** A page keeps everything but free links and slot number, and stays listed or off the lists. */
  predicate SamePlace(page: Page, page': Page) {
    && page'.slotNo == page.slotNo && Listed(page') == Listed(page) &&
       (!Listed(page) ==> page'.nextFree == page.nextFree)
  }

  predicate SameContent(page: Page, page': Page) {
    page'.used == page.used && page'.numFree == page.numFree && page'.prev == page.prev && page'.next == page.next
  }

  ghost predicate OnlyLinks(pages: Pages, pages': Pages, p: Ref) {
    && pages'.Keys == pages.Keys
    && forall q :: q in pages ==> SameContent(pages[q], pages'[q]) && (q != p ==> SamePlace(pages[q], pages'[q]))
  }

  lemma PushTouchesLinks(pages: Pages, root: Ref, first: Ref, slot: nat, p: Ref)
    requires p in pages && p != NULL && (first != NULL ==> first in pages && first != p && Listed(pages[first]))
    ensures OnlyLinks(pages, Pushed(pages, root, first, slot, p), p)
  {
  }

  lemma UnlinkTouchesLinks(pages: Pages, root: Ref, p: Ref)
    requires p in pages && Listed(pages[p])
    requires var prev, next := pages[p].prevFree, pages[p].nextFree;
             && (prev != root ==> prev in pages && prev != p && Listed(pages[prev]))
             && (next != NULL ==> next in pages && next != p && Listed(pages[next]))
    ensures OnlyLinks(pages, Unlinked(pages, root, p), p)
  {
    var pages' := Unlinked(pages, root, p);
    assert pages'.Keys == pages.Keys;
    hide Unlinked;
    forall q | q in pages && q != p ensures SameContent(pages[q], pages'[q]) && SamePlace(pages[q], pages'[q]) {
      UnlinkedAt(pages, root, p, q);
    }
    UnlinkedSelf(pages, root, p);
  }

  lemma UnlinkedSelf(pages: Pages, root: Ref, p: Ref)
    requires p in pages
    requires var prev, next := pages[p].prevFree, pages[p].nextFree;
             (prev != root ==> prev in pages && prev != p) && (next != NULL ==> next in pages && next != p)
    ensures p in Unlinked(pages, root, p) &&
            Unlinked(pages, root, p)[p] == pages[p].(prevFree := NULL, nextFree := NULL)
  {
  }

  /** Records, sizes and places after a page is linked in or unlinked. */
  lemma LinksOutcome(pages: Pages, pages': Pages, p: Ref, capacity: nat, loose: set<Ref>)
    requires OnlyLinks(pages, pages', p) && p in pages && SizesOk(pages, capacity) && PlacesOk(pages, capacity, loose)
    requires !Retired(pages[p]) && loose <= {p} && Placed(pages'[p], capacity)
    ensures SizesOk(pages', capacity) && PlacesOk(pages', capacity, {})
    ensures SameRecordsBut(pages, pages', p) && RetiredStay(pages, pages')
  {
  }

  lemma FirstIsListed(pages: Pages, root: Ref, slots: seq<Ref>, lists: seq<seq<Ref>>, slot: nat)
    requires ListsOk(pages, root, slots, lists) && slot < |slots| && root != NULL
    ensures slots[slot] == First(lists[slot])
    ensures slots[slot] != NULL ==>
              slots[slot] in pages && Listed(pages[slots[slot]]) && pages[slots[slot]].numFree >= 1 &&
              pages[slots[slot]].slotNo == slot
    ensures |slots| == |lists|
    ensures slots[slot] == NULL ==> lists[slot] == []
  {
    assert FreeList(pages, root, slots[slot], lists[slot], slot);
    if lists[slot] != [] {
      MemberIsListed(pages, root, slots[slot], lists[slot], slot, lists[slot][0]);
    }
  }

  /** Apart from page p, only back links of the list of all pages change. */
  ghost predicate OthersStay(pages: Pages, pages': Pages, p: Ref) {
    && pages'.Keys == pages.Keys + {p}
    && forall q :: q in pages && q != p ==> pages'[q] == pages[q].(prev := pages'[q].prev)
  }

  lemma SizesFollow(pages: Pages, pages': Pages, p: Ref, capacity: nat)
    requires OthersStay(pages, pages', p) && Sized(pages'[p], capacity) && SizesOk(pages, capacity)
    ensures SizesOk(pages', capacity)
  {
    forall q | q in pages' ensures Sized(pages'[q], capacity) {
      if q != p {
        assert Sized(pages[q], capacity);
      }
    }
    hide Sized;
  }

  lemma PlacesFollow(pages: Pages, pages': Pages, p: Ref, capacity: nat, loose: set<Ref>, loose': set<Ref>)
    requires OthersStay(pages, pages', p) && PlacesOk(pages, capacity, loose) && loose <= loose' + {p}
    requires p in loose' || Placed(pages'[p], capacity)
    ensures PlacesOk(pages', capacity, loose')
  {
    forall q | q in pages' && q !in loose' ensures Placed(pages'[q], capacity) {
      if q != p {
        assert Placed(pages[q], capacity);
      }
    }
    hide Placed;
  }

  lemma RecordsFollow(pages: Pages, pages': Pages, p: Ref)
    requires OthersStay(pages, pages', p)
    ensures SameRecordsBut(pages, pages', p)
  {
  }

  lemma RetiredFollow(pages: Pages, pages': Pages, p: Ref)
    requires OthersStay(pages, pages', p)
    requires p in pages && Retired(pages[p]) ==> Retired(pages'[p]) && pages'[p].used.Keys <= pages[p].used.Keys
    ensures RetiredStay(pages, pages')
  {
  }

  lemma ChangedPage(pages: Pages, p: Ref, page': Page)
    requires p in pages
    ensures OthersStay(pages, pages[p := page'], p)
  {
  }

  lemma NewPageOthers(pages: Pages, head: Ref, added: Ref, page: Page)
    requires added !in pages && (head != NULL ==> head in pages)
    ensures OthersStay(pages, WithNewPage(pages, head, added, page), added)
    ensures WithNewPage(pages, head, added, page)[added] == page
  {
  }

  lemma SameAllPages(pages: Pages, p: Ref, page': Page, head: Ref, tail: Ref, all: seq<Ref>)
    requires p in pages && page'.prev == pages[p].prev && page'.next == pages[p].next && AllList(pages, head, tail, all)
    ensures AllList(pages[p := page'], head, tail, all)
  {
    hide AllList;
    assert pages[p := page'].Keys == pages.Keys;
    SameAllList(pages, pages[p := page'], head, tail, all);
  }

  /** Everything kept when only the records of page p change. */
  lemma RecordsOutcome(pages: Pages, root: Ref, slots: seq<Ref>, lists: seq<seq<Ref>>, head: Ref, tail: Ref,
                       all: seq<Ref>,
                       p: Ref, page': Page, capacity: nat, loose: set<Ref>)
    requires p in pages && page' == pages[p].(numFree := page'.numFree, used := page'.used) && Sized(page', capacity)
    requires Listed(pages[p]) ==> page'.numFree >= 1
    requires p !in loose ==> Placed(page', capacity)
    requires root != NULL && ListsOk(pages, root, slots, lists) && OnLists(pages, lists) && SizesOk(pages, capacity)
    requires AllList(pages, head, tail, all) && PlacesOk(pages, capacity, loose)
    ensures var pages' := pages[p := page'];
            && ListsOk(pages', root, slots, lists) && OnLists(pages', lists) && SizesOk(pages', capacity)
            && AllList(pages', head, tail, all) && PlacesOk(pages', capacity, loose)
            && SameRecordsBut(pages, pages', p)
    ensures (Retired(pages[p]) ==> page'.used.Keys <= pages[p].used.Keys) ==> RetiredStay(pages, pages[p := page'])
  {
    hide ListsOk, OnLists, SizesOk, AllList, PlacesOk, SameRecordsBut, RetiredStay, OthersStay, Sized, Placed;
    RecordsChange(pages, root, slots, lists, p, page');
    SameAllPages(pages, p, page', head, tail, all);
    ChangedPage(pages, p, page');
    SizesFollow(pages, pages[p := page'], p, capacity);
    PlacesFollow(pages, pages[p := page'], p, capacity, loose, loose);
    RecordsFollow(pages, pages[p := page'], p);
    if Retired(pages[p]) ==> page'.used.Keys <= pages[p].used.Keys {
      RetiredFollow(pages, pages[p := page'], p);
    }
  }

  /** Everything kept when a formatted page joins the list of all pages. */
  lemma NewPageOutcome(pages: Pages, root: Ref, slots: seq<Ref>, lists: seq<seq<Ref>>, head: Ref, tail: Ref,
                       all: seq<Ref>,
                       added: Ref, page: Page, capacity: nat)
    requires added !in pages && added != NULL && page.prev == NULL && page.next == head && Sized(page, capacity) &&
             !Listed(page)
    requires root != NULL && ListsOk(pages, root, slots, lists) && OnLists(pages, lists) && SizesOk(pages, capacity)
    requires AllList(pages, head, tail, all) && PlacesOk(pages, capacity, {})
    ensures head != NULL ==> head in pages
    ensures var pages' := WithNewPage(pages, head, added, page);
            && ListsOk(pages', root, slots, lists) && OnLists(pages', lists) && SizesOk(pages', capacity)
            && AllList(pages', added, if head == NULL then added else tail, [added] + all) &&
               PlacesOk(pages', capacity, {added})
            && SameRecordsBut(pages, pages', added) && RetiredStay(pages, pages') && pages'.Keys == pages.Keys + {added}
  {
    hide ListsOk, OnLists, SizesOk, AllList, PlacesOk, SameRecordsBut, RetiredStay, OthersStay, Sized, WithNewPage;
    NewPageIsFirst(pages, head, tail, all, added, page);
    NewPageSparesLists(pages, root, slots, lists, head, added, page);
    NewPageOthers(pages, head, added, page);
    var pages' := WithNewPage(pages, head, added, page);
    InKeys(pages, pages', added);
    SizesFollow(pages, pages', added, capacity);
    PlacesFollow(pages, pages', added, capacity, {}, {added});
    RecordsFollow(pages, pages', added);
    RetiredFollow(pages, pages', added);
  }

  lemma InKeys(pages: Pages, pages': Pages, p: Ref)
    requires OthersStay(pages, pages', p)
    ensures p in pages' && pages'.Keys == pages.Keys + {p}
  {
  }

  lemma RetiredAcross(pages0: Pages, pages1: Pages, pages2: Pages, p: Ref)
    requires RetiredStay(pages0, pages1) && p in pages1 && p in pages2 && pages2 == pages1[p := pages2[p]]
    requires p in pages0 ==> !Retired(pages0[p])
    ensures RetiredStay(pages0, pages2)
  {
  }

  lemma RecordsAcross(pages0: Pages, pages1: Pages, pages2: Pages, p: Ref)
    requires SameRecordsBut(pages0, pages1, p) && SameRecordsBut(pages1, pages2, p)
    ensures SameRecordsBut(pages0, pages2, p)
  {
  }

  /** Retirement is for good, over any number of steps. */
  lemma RetiredForGood(pages0: Pages, pages1: Pages, pages2: Pages)
    requires RetiredStay(pages0, pages1) && RetiredStay(pages1, pages2)
    ensures RetiredStay(pages0, pages2)
  {
  }

  lemma TakenSlot(page: Page, capacity: nat, slot: nat, record: Record)
    requires Sized(page, capacity) && slot < capacity && slot !in page.used && page.numFree >= 1
    ensures Sized(page.(used := page.used[slot := record], numFree := page.numFree - 1), capacity)
  {
    assert page.used[slot := record].Keys == page.used.Keys + {slot};
  }

  lemma FreedSlot(page: Page, capacity: nat, slot: nat)
    requires Sized(page, capacity) && slot in page.used
    ensures Sized(page.(used := page.used - {slot}, numFree := page.numFree + 1), capacity)
  {
    assert (page.used - {slot}).Keys == page.used.Keys - {slot};
  }

  lemma SizedPage(pages: Pages, capacity: nat, p: Ref)
    requires SizesOk(pages, capacity) && p in pages
    ensures Sized(pages[p], capacity)
  {
  }

  lemma PlacedPage(pages: Pages, capacity: nat, loose: set<Ref>, p: Ref)
    requires PlacesOk(pages, capacity, loose) && p in pages && p !in loose
    ensures Placed(pages[p], capacity)
  {
  }

  lemma Loosened(pages: Pages, capacity: nat, p: Ref)
    requires PlacesOk(pages, capacity, {})
    ensures PlacesOk(pages, capacity, {p})
  {
    hide Placed;
  }

  lemma Tightened(pages: Pages, capacity: nat, p: Ref)
    requires PlacesOk(pages, capacity, {p}) && (p in pages ==> Placed(pages[p], capacity))
    ensures PlacesOk(pages, capacity, {})
  {
    hide Placed;
  }

  lemma NothingRetires(pages: Pages)
    ensures RetiredStay(pages, pages)
  {
  }

  lemma SameRecordsHere(pages: Pages, p: Ref)
    ensures SameRecordsBut(pages, pages, p)
  {
  }

  lemma OthersUnchanged(pages: Pages, pages': Pages, p: Ref)
    requires p in pages && p in pages' && pages' == pages[p := pages'[p]]
    ensures SameRecordsBut(pages, pages', p)
  {
  }

  lemma MarkedSlot(page: Page, capacity: nat, slot: nat, record: Record)
    requires Sized(page, capacity) && slot in page.used
    ensures Sized(page.(used := page.used[slot := record]), capacity)
    ensures page.used[slot := record].Keys == page.used.Keys
  {
    assert page.used[slot := record].Keys == page.used.Keys;
  }

  lemma ListedHasFree(pages: Pages, root: Ref, slots: seq<Ref>, lists: seq<seq<Ref>>, p: Ref)
    requires ListsOk(pages, root, slots, lists) && OnLists(pages, lists) && root != NULL && p in pages &&
             Listed(pages[p])
    ensures pages[p].numFree >= 1
  {
    MemberIsListed(pages, root, slots[pages[p].slotNo], lists[pages[p].slotNo], pages[p].slotNo, p);
  }

  /** Only a full page of one record has never been listed. */
  lemma NeverListed(pages: Pages, root: Ref, slots: seq<Ref>, lists: seq<seq<Ref>>, capacity: nat, p: Ref)
    requires ListsOk(pages, root, slots, lists) && OnLists(pages, lists) && |slots| < INVALID_SLOT &&
             PlacesOk(pages, capacity, {})
    requires p in pages && pages[p].slotNo == INVALID_SLOT
    ensures !Listed(pages[p]) && capacity == 1 && pages[p].numFree == 0
  {
    assert Placed(pages[p], capacity);
  }

  lemma AlmostFullIsNeeded(page: Page, capacity: nat)
    requires capacity == 1 && page.numFree == 0 && page.slotNo == INVALID_SLOT
    ensures NeedsAdd(page, capacity, true)
  {
  }

  /** Everything kept when page p, the k-th of its list, is unlinked. */
  lemma UnlinkOutcome(pages: Pages, root: Ref, slots: seq<Ref>, lists: seq<seq<Ref>>, head: Ref, tail: Ref,
                      all: seq<Ref>,
                      p: Ref, k: nat, capacity: nat)
    requires p in pages && pages[p].slotNo < |lists| && k < |lists[pages[p].slotNo]| && lists[pages[p].slotNo][k] == p
    requires |slots| < INVALID_SLOT && Listed(pages[p]) && root != NULL && root !in pages
    requires ListsOk(pages, root, slots, lists) && OnLists(pages, lists) && SizesOk(pages, capacity)
    requires AllList(pages, head, tail, all) && PlacesOk(pages, capacity, {})
    ensures var prev, next, slot := pages[p].prevFree, pages[p].nextFree, pages[p].slotNo;
            && |slots| == |lists| && |Removed(lists[slot], k)| == |lists[slot]| - 1
            && (prev != root ==> prev in pages && prev != p) && (next != NULL ==> next in pages && next != p)
            && var pages', slots' := Unlinked(pages, root, p), if prev == root then slots[slot := next] else slots;
            && ListsOk(pages', root, slots', lists[slot := Removed(lists[slot], k)])
            && OnLists(pages', lists[slot := Removed(lists[slot], k)])
            && SizesOk(pages', capacity) && PlacesOk(pages', capacity, {}) && AllList(pages', head, tail, all)
            && SameRecordsBut(pages, pages', p) && RetiredStay(pages, pages') && pages'.Keys == pages.Keys
            && Retired(pages'[p]) && pages'[p].used == pages[p].used && pages'[p].numFree == pages[p].numFree
  {
    hide ListsOk, OnLists, AllList, SizesOk, PlacesOk, SameRecordsBut, RetiredStay, Unlinked, OnlyLinks;
    SameNumber(pages, root, slots, lists);
    Unlinks(pages, root, slots, lists, p, k);
    LinkedPagesAreListed(pages, root, slots, lists, p, k);
    UnlinkTouchesLinks(pages, root, p);
    UnlinkedSelf(pages, root, p);
    var pages' := Unlinked(pages, root, p);
    LinksOutcome(pages, pages', p, capacity, {});
    OnlyLinksSameAll(pages, pages', p, head, tail, all);
  }

  lemma OnlyLinksSameAll(pages: Pages, pages': Pages, p: Ref, head: Ref, tail: Ref, all: seq<Ref>)
    requires OnlyLinks(pages, pages', p) && AllList(pages, head, tail, all)
    ensures AllList(pages', head, tail, all) && pages'.Keys == pages.Keys
  {
    hide AllList;
    SameAllList(pages, pages', head, tail, all);
  }

  /** Everything kept when page p is linked in at the front of a list. */
  lemma PushOutcome(pages: Pages, root: Ref, slots: seq<Ref>, lists: seq<seq<Ref>>, head: Ref, tail: Ref, all: seq<Ref>,
                    p: Ref, slot: nat, capacity: nat)
    requires p in pages && slot < |slots| && pages[p].numFree >= 1 && !Listed(pages[p]) &&
             pages[p].slotNo == INVALID_SLOT
    requires root != NULL
    requires ListsOk(pages, root, slots, lists) && OnLists(pages, lists) && SizesOk(pages, capacity)
    requires AllList(pages, head, tail, all) && PlacesOk(pages, capacity, {p})
    ensures |slots| == |lists| && (slots[slot] != NULL ==> slots[slot] in pages && slots[slot] != p)
    ensures var pages', lists' := Pushed(pages, root, slots[slot], slot, p), lists[slot := [p] + lists[slot]];
            && ListsOk(pages', root, slots[slot := p], lists') && OnLists(pages', lists')
            && SizesOk(pages', capacity) && PlacesOk(pages', capacity, {}) && AllList(pages', head, tail, all)
            && SameRecordsBut(pages, pages', p) && RetiredStay(pages, pages') && pages'.Keys == pages.Keys
            && pages'[p].used == pages[p].used && pages'[p].numFree == pages[p].numFree
            && Listed(pages'[p]) && pages'[p].slotNo == slot
  {
    hide ListsOk, OnLists, AllList, SizesOk, PlacesOk, SameRecordsBut, RetiredStay, OnlyLinks;
    SameNumber(pages, root, slots, lists);
    PagesAreNotNull(pages, head, tail, all, p);
    FirstIsListed(pages, root, slots, lists, slot);
    AddsToFront(pages, root, slots, lists, p, slot);
    PushTouchesLinks(pages, root, slots[slot], slot, p);
    var pages' := Pushed(pages, root, slots[slot], slot, p);
    PushedSelf(pages, root, slots[slot], slot, p);
    hide Pushed;
    LinksOutcome(pages, pages', p, capacity, {p});
    OnlyLinksSameAll(pages, pages', p, head, tail, all);
  }

  lemma PushedSelf(pages: Pages, root: Ref, first: Ref, slot: nat, p: Ref)
    requires p in pages && (first != NULL ==> first in pages && first != p)
    ensures var pages' := Pushed(pages, root, first, slot, p);
            p in pages' && pages'[p] == pages[p].(prevFree := root, nextFree := first, slotNo := slot)
  {
  }

  /** With one slot and one page, the slot is that page or empty. */
  lemma OnlyPage(pages: Pages, root: Ref, slots: seq<Ref>, lists: seq<seq<Ref>>, p: Ref)
    requires ListsOk(pages, root, slots, lists) && OnLists(pages, lists) && root != NULL
    requires |slots| == 1 && pages.Keys == {p} && p != NULL
    ensures slots[0] == if Listed(pages[p]) then p else NULL
    ensures Listed(pages[p]) ==> pages[p].slotNo == 0
  {
    FirstIsListed(pages, root, slots, lists, 0);
    assert p in pages;
    if slots[0] != NULL {
      assert slots[0] in pages.Keys;
    }
  }

  lemma StaysRetired(pages: Pages, pages': Pages, p: Ref)
    requires RetiredStay(pages, pages') && p in pages && Retired(pages[p])
    ensures p in pages' && Retired(pages'[p]) && pages'[p].used.Keys <= pages[p].used.Keys
  {
  }

  lemma KeepsRecords(pages: Pages, pages': Pages, p: Ref, q: Ref)
    requires SameRecordsBut(pages, pages', p) && q in pages && q != p
    ensures q in pages' && pages'[q].used == pages[q].used && pages'[q].numFree == pages[q].numFree
  {
  }
}
