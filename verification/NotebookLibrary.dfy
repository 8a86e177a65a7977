/** The operations that build a library's notebooks and pages, and the lookup of a scanned code. */
module NotebookLibrary {
  import opened Prelude
  import opened IdCodec
  import opened QrCodes
  import opened PageCodes
  import opened Texts

  // ---- pages inserted in order ---------------------------------------------------------------------

  ghost predicate FreshPages(pages: map<Id, Page>, ids: seq<Id>) {
    && (forall i :: 0 <= i < |ids| ==> ids[i] !in pages)
    && (forall i, j :: 0 <= i < j < |ids| ==> ids[i] != ids[j])
  }

  lemma FreshPrefix(pages: map<Id, Page>, ids: seq<Id>, count: nat)
    requires FreshPages(pages, ids) && count <= |ids|
    ensures FreshPages(pages, ids[..count])
  {}

  function NumberedPage(n: Id, d: Id, number: nat, layout: Layout): Page {
    Page(NotebookPage(n, d, number), layout)
  }

  /** The pages after the first pages of a notebook are inserted, numbered from one. */
  ghost predicate Numbered(before: map<Id, Page>, after: map<Id, Page>, n: Id, d: Id, layout: Layout, ids: seq<Id>) {
    && (forall p :: p in after <==> p in before || p in ids)
    && (forall p :: p in before ==> p in after && after[p] == before[p])
    && (forall i :: 0 <= i < |ids| ==> ids[i] in after && after[ids[i]] == NumberedPage(n, d, i + 1, layout))
  }

  lemma NumberOneMore(before: map<Id, Page>, after: map<Id, Page>, n: Id, d: Id, layout: Layout, ids: seq<Id>, k: nat)
    requires k < |ids| && FreshPages(before, ids)
    requires Numbered(before, after, n, d, layout, ids[..k])
    ensures Numbered(before, after[ids[k] := NumberedPage(n, d, k + 1, layout)], n, d, layout, ids[..k + 1])
  {
    assert ids[..k + 1] == ids[..k] + [ids[k]];
    var after' := after[ids[k] := NumberedPage(n, d, k + 1, layout)];
    forall i | 0 <= i < k + 1
      ensures after'[ids[i]] == NumberedPage(n, d, i + 1, layout)
    {
      if i < k {
        assert ids[..k][i] == ids[i];
      }
    }
  }

  lemma NewNotebookSlots(before: map<Id, Page>, after: map<Id, Page>, n: Id, d: Id, layout: Layout, ids: seq<Id>)
    requires FreshPages(before, ids) && Numbered(before, after, n, d, layout, ids)
    requires SlotsUnique(before) && forall p, k :: !IsSlot(before, p, n, k)
    ensures SlotsUnique(after)
    ensures forall k :: 1 <= k <= |ids| ==> HasSlot(after, n, k)
    ensures forall m, k :: m != n && HasSlot(before, m, k) ==> HasSlot(after, m, k)
  {
    forall p: Id, m: Id, k: nat | IsSlot(after, p, m, k)
      ensures if m == n then 1 <= k <= |ids| && ids[k - 1] == p else IsSlot(before, p, m, k)
    {
      if p in before {
        assert IsSlot(before, p, m, k);
      } else {
        var i :| 0 <= i < |ids| && ids[i] == p;
      }
    }
    forall p: Id, q: Id, m: Id, k: nat | IsSlot(after, p, m, k) && IsSlot(after, q, m, k)
      ensures p == q
    {
      if m != n {
        assert IsSlot(before, p, m, k) && IsSlot(before, q, m, k);
      }
    }
    forall k | 1 <= k <= |ids|
      ensures HasSlot(after, n, k)
    {
      assert IsSlot(after, ids[k - 1], n, k);
    }
    forall m: Id, k: nat | m != n && HasSlot(before, m, k)
      ensures HasSlot(after, m, k)
    {
      var p :| IsSlot(before, p, m, k);
      assert IsSlot(after, p, m, k);
    }
  }

  lemma NewNotebookSmartIds(before: map<Id, Page>, after: map<Id, Page>, n: Id, d: Id, layout: Layout, ids: seq<Id>)
    requires Numbered(before, after, n, d, layout, ids) && SmartIdsUnique(before)
    ensures SmartIdsUnique(after)
  {
    forall p: Id, q: Id, s: Id | IsSmart(after, p, s) && IsSmart(after, q, s)
      ensures p == q
    {
      assert IsSmart(before, p, s) && IsSmart(before, q, s);
    }
  }

  lemma ActiveStays(notebooks: map<Id, Notebook>, id: Id, book: Notebook)
    requires OneActive(notebooks)
    requires book.active ==> IsActive(notebooks, id)
    ensures OneActive(notebooks[id := book])
  {
    var after := notebooks[id := book];
    forall a, b | IsActive(after, a) && IsActive(after, b)
      ensures a == b
    {
      assert IsActive(notebooks, a) && IsActive(notebooks, b);
    }
  }

  lemma NoSlotsYet(shelf: Shelf, n: Id)
    requires n !in shelf.notebooks && forall p :: p in shelf.pages ==> PageFits(shelf, shelf.pages[p])
    ensures forall p: Id, k: nat :: !IsSlot(shelf.pages, p, n, k)
  {
    forall p | p in shelf.pages && shelf.pages[p].kind.NotebookPage?
      ensures shelf.pages[p].kind.notebook != n
    {
      assert PageFits(shelf, shelf.pages[p]);
    }
  }

  /** A new notebook with one page for each number of its design keeps the shelf sound. */
  lemma NewNotebookKeepsShelf(shelf: Shelf, shelf': Shelf, n: Id, book: Notebook, design: Design, ids: seq<Id>)
    requires ShelfOk(shelf) && n !in shelf.notebooks && DesignOk(design)
    requires book.design in shelf.designs ==> shelf.designs[book.design] == design
    requires book.archivedAt.None? && !book.active
    requires |ids| == design.pageCount && FreshPages(shelf.pages, ids)
    requires shelf'.designs == shelf.designs[book.design := design]
    requires shelf'.notebooks == shelf.notebooks[n := book]
    requires Numbered(shelf.pages, shelf'.pages, n, book.design, design.pageLayout, ids)
    ensures ShelfOk(shelf')
  {
    NoSlotsYet(shelf, n);
    NewNotebookSlots(shelf.pages, shelf'.pages, n, book.design, design.pageLayout, ids);
    NewNotebookSmartIds(shelf.pages, shelf'.pages, n, book.design, design.pageLayout, ids);
    NewNotebookPagesFit(shelf, shelf', n, book, design, ids);
    ActiveStays(shelf.notebooks, n, book);
    forall m, k | m in shelf'.notebooks && 1 <= k <= DesignCount(shelf', m)
      ensures HasSlot(shelf'.pages, m, k)
    {
      if m != n {
        assert DesignCount(shelf', m) == DesignCount(shelf, m);
        assert HasSlot(shelf.pages, m, k);
      }
    }
  }

  lemma NewNotebookPagesFit(shelf: Shelf, shelf': Shelf, n: Id, book: Notebook, design: Design, ids: seq<Id>)
    requires ShelfOk(shelf) && n !in shelf.notebooks
    requires book.design in shelf.designs ==> shelf.designs[book.design] == design
    requires |ids| == design.pageCount
    requires shelf'.designs == shelf.designs[book.design := design]
    requires shelf'.notebooks == shelf.notebooks[n := book]
    requires Numbered(shelf.pages, shelf'.pages, n, book.design, design.pageLayout, ids)
    ensures forall p :: p in shelf'.pages ==> PageFits(shelf', shelf'.pages[p])
  {
    forall p | p in shelf'.pages
      ensures PageFits(shelf', shelf'.pages[p])
    {
      if p in shelf.pages {
        assert PageFits(shelf, shelf.pages[p]);
      } else {
        var i :| 0 <= i < |ids| && ids[i] == p;
      }
    }
  }

  // ---- changing which notebook is active or archived -----------------------------------------------

  /** Only names, times, archiving and the active mark change. */
  ghost predicate SameDesigns(before: map<Id, Notebook>, after: map<Id, Notebook>) {
    && before.Keys == after.Keys
    && forall n :: n in before ==> before[n].design == after[n].design
  }

  lemma NotebookEditKeepsShelf(shelf: Shelf, notebooks': map<Id, Notebook>)
    requires ShelfOk(shelf) && SameDesigns(shelf.notebooks, notebooks')
    requires OneActive(notebooks')
    requires forall n :: n in notebooks' && notebooks'[n].archivedAt.Some? ==> !notebooks'[n].active
    ensures ShelfOk(shelf.(notebooks := notebooks'))
  {
    var shelf' := shelf.(notebooks := notebooks');
    forall p | p in shelf.pages
      ensures PageFits(shelf', shelf.pages[p])
    {
      assert PageFits(shelf, shelf.pages[p]);
    }
    forall n, k | n in notebooks' && 1 <= k <= DesignCount(shelf', n)
      ensures HasSlot(shelf.pages, n, k)
    {
      assert n in shelf.notebooks;
    }
  }

  function Activated(notebooks: map<Id, Notebook>, chosen: Option<Id>, now: int): map<Id, Notebook> {
    map n | n in notebooks ::
      var on := chosen == Some(n);
      if notebooks[n].active == on then notebooks[n] else notebooks[n].(active := on, updatedAt := now)
  }

  function ArchivedNotebook(book: Notebook, now: int): Notebook {
    if book.archivedAt.Some? then book else book.(archivedAt := Some(now), active := false, updatedAt := now)
  }

  // ---- smart pages -----------------------------------------------------------------------------------

  ghost predicate Smart(before: map<Id, Page>, after: map<Id, Page>, set': Id, first: nat, layout: Layout,
                        ids: seq<Id>, smartIds: seq<Id>)
    requires |ids| == |smartIds|
  {
    && (forall p :: p in after <==> p in before || p in ids)
    && (forall p :: p in before ==> p in after && after[p] == before[p])
    && (forall i :: 0 <= i < |ids| ==>
          ids[i] in after && after[ids[i]] == Page(SmartPage(smartIds[i], Some(set'), Some(first + i)), layout))
  }

  ghost predicate FreshSmartIds(pages: map<Id, Page>, smartIds: seq<Id>) {
    && (forall p, i :: 0 <= i < |smartIds| ==> !IsSmart(pages, p, smartIds[i]))
    && (forall i, j :: 0 <= i < j < |smartIds| ==> smartIds[i] != smartIds[j])
  }

  lemma SmartOneMore(before: map<Id, Page>, after: map<Id, Page>, set': Id, first: nat, layout: Layout,
                     ids: seq<Id>, smartIds: seq<Id>, k: nat)
    requires |ids| == |smartIds| && k < |ids| && FreshPages(before, ids)
    requires Smart(before, after, set', first, layout, ids[..k], smartIds[..k])
    ensures Smart(before, after[ids[k] := Page(SmartPage(smartIds[k], Some(set'), Some(first + k)), layout)],
                  set', first, layout, ids[..k + 1], smartIds[..k + 1])
  {
    assert ids[..k + 1] == ids[..k] + [ids[k]];
    var after' := after[ids[k] := Page(SmartPage(smartIds[k], Some(set'), Some(first + k)), layout)];
    forall i | 0 <= i < k + 1
      ensures after'[ids[i]] == Page(SmartPage(smartIds[i], Some(set'), Some(first + i)), layout)
    {
      if i < k {
        assert ids[..k][i] == ids[i] && smartIds[..k][i] == smartIds[i];
      }
    }
  }

  lemma SmartPagesKeepShelf(shelf: Shelf, pages': map<Id, Page>, set': Id, first: nat, layout: Layout,
                            ids: seq<Id>, smartIds: seq<Id>)
    requires ShelfOk(shelf) && |ids| == |smartIds| && FreshPages(shelf.pages, ids)
    requires FreshSmartIds(shelf.pages, smartIds) && ValidLayout(layout)
    requires ids == [] || first + |ids| - 1 <= MAX_NUMERIC_FIELD
    requires Smart(shelf.pages, pages', set', first, layout, ids, smartIds)
    ensures ShelfOk(shelf.(pages := pages'))
  {
    var shelf' := shelf.(pages := pages');
    forall p | p in pages'
      ensures PageFits(shelf', pages'[p])
    {
      if p in shelf.pages {
        assert PageFits(shelf, shelf.pages[p]);
      } else {
        var i :| 0 <= i < |ids| && ids[i] == p;
      }
    }
    forall p: Id, n: Id, k: nat | IsSlot(pages', p, n, k)
      ensures IsSlot(shelf.pages, p, n, k)
    {}
    forall p, q, n, k | IsSlot(pages', p, n, k) && IsSlot(pages', q, n, k)
      ensures p == q
    {
      assert IsSlot(shelf.pages, p, n, k) && IsSlot(shelf.pages, q, n, k);
    }
    forall n, k | HasSlot(shelf.pages, n, k)
      ensures HasSlot(pages', n, k)
    {
      var p :| IsSlot(shelf.pages, p, n, k);
      assert IsSlot(pages', p, n, k);
    }
    NewSmartIdsUnique(shelf.pages, pages', set', first, layout, ids, smartIds);
  }

  /** A smart page is new exactly when its smart page id is. */
  lemma SmartOrigin(before: map<Id, Page>, after: map<Id, Page>, set': Id, first: nat, layout: Layout,
                    ids: seq<Id>, smartIds: seq<Id>, p: Id, s: Id)
    requires |ids| == |smartIds| && FreshPages(before, ids) && FreshSmartIds(before, smartIds)
    requires Smart(before, after, set', first, layout, ids, smartIds) && IsSmart(after, p, s)
    ensures p in before <==> s !in smartIds
    ensures p in before ==> IsSmart(before, p, s)
  {
    if p in before {
      assert IsSmart(before, p, s);
    } else {
      var i :| 0 <= i < |ids| && ids[i] == p;
      assert smartIds[i] == s;
    }
  }

  lemma NewSmartIdsUnique(before: map<Id, Page>, after: map<Id, Page>, set': Id, first: nat, layout: Layout,
                          ids: seq<Id>, smartIds: seq<Id>)
    requires |ids| == |smartIds| && FreshPages(before, ids) && FreshSmartIds(before, smartIds)
    requires SmartIdsUnique(before) && Smart(before, after, set', first, layout, ids, smartIds)
    ensures SmartIdsUnique(after)
  {
    forall p: Id, q: Id, s: Id | IsSmart(after, p, s) && IsSmart(after, q, s)
      ensures p == q
    {
      SmartOrigin(before, after, set', first, layout, ids, smartIds, p, s);
      SmartOrigin(before, after, set', first, layout, ids, smartIds, q, s);
      if p !in before {
        var i :| 0 <= i < |ids| && ids[i] == p;
        var j :| 0 <= j < |ids| && ids[j] == q;
        assert smartIds[i] == smartIds[j];
      }
    }
  }

  // ---- the library -----------------------------------------------------------------------------------

  /** The notebook's pages, numbered from one. */
  method InsertPages(before: map<Id, Page>, n: Id, d: Id, layout: Layout, ids: seq<Id>) returns (after: map<Id, Page>)
    requires FreshPages(before, ids)
    ensures Numbered(before, after, n, d, layout, ids)
  {
    after := before;
    assert ids[..0] == [];
    for k := 0 to |ids|
      invariant Numbered(before, after, n, d, layout, ids[..k])
    {
      NumberOneMore(before, after, n, d, layout, ids, k);
      after := after[ids[k] := NumberedPage(n, d, k + 1, layout)];
    }
    assert ids[..|ids|] == ids;
  }

  predicate NameAllowed(name: string) {
    name != "" && Utf8Length(name) <= MAX_NAME_BYTES
  }

  /** What a setup code is answered with: its design if it is stored or else bundled, and not revoked. */
  predicate SetupAnswered(build: Build, shelf: Shelf, parsed: Result<PageCode, ParseError>,
                          result: Result<Id, CodeError>) {
    match parsed
    case Err(e) => result == Err(PayloadInvalid(e))
    case Ok(NotebookSetup(d)) =>
      if d in shelf.designs
      then result == if shelf.designs[d].trust == Revoked then Err(DesignRevoked) else Ok(d)
      else if d == build.bundledId && build.bundled.Some?
      then result == if build.bundled.value.trust == Revoked then Err(DesignRevoked) else Ok(d)
      else result == Err(DesignUnavailable)
    case Ok(_) => result == Err(NotASetupCode)
  }

  class Library {
    var designs: map<Id, Design>
    var notebooks: map<Id, Notebook>
    var pages: map<Id, Page>

    function Stored(): Shelf
      reads this
    {
      Shelf(designs, notebooks, pages)
    }

    ghost predicate Valid()
      reads this
    {
      ShelfOk(Stored())
    }

    constructor ()
      ensures Valid() && Stored() == Shelf(map[], map[], map[])
    {
      designs, notebooks, pages := map[], map[], map[];
    }

    method SetupDesign(build: Build, payload: string) returns (result: Result<Id, CodeError>)
      requires Valid() && BuildOk(build)
      ensures result.Ok? ==>
                && ParsePayload(build, payload) == Ok(NotebookSetup(result.value))
                && AvailableDesign(build, Stored(), result.value).Some?
                && DesignOk(AvailableDesign(build, Stored(), result.value).value)
                && AvailableDesign(build, Stored(), result.value).value.trust != Revoked
      ensures SetupAnswered(build, Stored(), ParsePayload(build, payload), result)
    {
      var parsed := ParsePayload(build, payload);
      match parsed
      case Err(e) => return Err(PayloadInvalid(e));
      case Ok(code) =>
        match code
        case NotebookSetup(design) =>
          var available := AvailableDesign(build, Stored(), design);
          if available.None? {
            return Err(DesignUnavailable);
          }
          if available.value.trust == Revoked {
            return Err(DesignRevoked);
          }
          return Ok(design);
        case _ => return Err(NotASetupCode);
    }

    /** The transaction: the design if it is new, the notebook, and a page for every number of the design. */
    method AddNotebook(id: Id, design: Design, book: Notebook, ids: seq<Id>)
      requires Valid() && id !in notebooks && DesignOk(design) && book.archivedAt.None? && !book.active
      requires book.design in designs ==> designs[book.design] == design
      requires |ids| == design.pageCount && FreshPages(pages, ids)
      modifies this
      ensures Valid()
      ensures designs == old(designs)[book.design := design] && notebooks == old(notebooks)[id := book]
      ensures Numbered(old(pages), pages, id, book.design, design.pageLayout, ids)
    {
      ghost var before := Stored();
      var inserted := InsertPages(pages, id, book.design, design.pageLayout, ids);
      designs := designs[book.design := design];
      notebooks := notebooks[id := book];
      pages := inserted;
      NewNotebookKeepsShelf(before, Stored(), id, book, design, ids);
    }

    /** The printed design, if it may be used and agrees with a stored design of the same id. */
    method CheckCreation(build: Build, payload: string, name: string) returns (result: Result<(Id, Design), CodeError>)
      requires Valid() && BuildOk(build)
      ensures result.Ok? ==>
                && ParsePayload(build, payload) == Ok(NotebookSetup(result.value.0))
                && AvailableDesign(build, Stored(), result.value.0) == Some(result.value.1)
                && DesignOk(result.value.1) && NameAllowed(Trimmed(name))
      ensures exists setup: Result<Id, CodeError> :: SetupAnswered(build, Stored(), ParsePayload(build, payload), setup) &&
                if setup.Err? then result == Err(setup.error)
                else if Trimmed(name) == "" || Utf8Length(Trimmed(name)) > 200 then result == Err(NameInvalid)
                else result.Ok? && result.value.0 == setup.value
    {
      var setup := SetupDesign(build, payload);
      if setup.Err? {
        return Err(setup.error);
      }
      var design := AvailableDesign(build, Stored(), setup.value).value;
      if !NameAllowed(Trimmed(name)) {
        return Err(NameInvalid);
      }
      if setup.value in designs && designs[setup.value].hash != design.hash {
        return Err(DesignConflict);
      }
      return Ok((setup.value, design));
    }

    /** A new notebook of the printed design, with a page for every number of that design. */
    method CreateNotebook(build: Build, payload: string, name: string, makeActive: bool, now: int,
                          id: Id, pageIds: seq<Id>)
      returns (result: Result<nat, CodeError>)
      requires Valid() && BuildOk(build) && id !in notebooks
      requires FreshPages(pages, pageIds) && |pageIds| >= MAX_LOGICAL_PAGES
      modifies this
      ensures Valid()
      ensures result.Err? ==> Stored() == old(Stored())
      ensures exists setup: Result<Id, CodeError> ::
                && SetupAnswered(build, old(Stored()), ParsePayload(build, payload), setup)
                && (if setup.Err? then result == Err(setup.error)
                    else if Trimmed(name) == "" || Utf8Length(Trimmed(name)) > 200 then result == Err(NameInvalid)
                    else result.Ok?)
      ensures result.Ok? ==>
                && id in notebooks && notebooks[id].name == Trimmed(name) && notebooks[id].archivedAt.None?
                && notebooks[id].createdAt == notebooks[id].updatedAt == now
                && designs == old(designs)[notebooks[id].design := designs[notebooks[id].design]]
                && Names(build, old(Stored()), notebooks[id].design, designs[notebooks[id].design])
                && ParsePayload(build, payload) == Ok(NotebookSetup(notebooks[id].design))
                && var d := notebooks[id].design;
                   && d in designs && result.value == designs[d].pageCount <= |pageIds|
                   && Numbered(old(pages), pages, id, d, designs[d].pageLayout, pageIds[..result.value])
      ensures result.Ok? ==>
                && notebooks.Keys == old(notebooks).Keys + {id}
                && (forall n :: n in old(notebooks) ==> notebooks[n].(active := false, updatedAt := 0)
                                                        == old(notebooks)[n].(active := false, updatedAt := 0))
                && notebooks[id].active == makeActive
                && (makeActive ==> forall n: Id :: IsActive(notebooks, n) ==> n == id)
                && (!makeActive ==> notebooks == old(notebooks)[id := notebooks[id]])
    {
      var checked := CheckCreation(build, payload, name);
      if checked.Err? {
        return Err(checked.error);
      }
      var d, design := checked.value.0, checked.value.1;
      var count := design.pageCount;
      FreshPrefix(pages, pageIds, count);
      AddNotebook(id, design, Notebook(d, Trimmed(name), now, now, None, false), pageIds[..count]);
      if makeActive {
        Activate(Some(id), now);
      }
      return Ok(count);
    }

    /** Marks one notebook active, or none, and unmarks every other. */
    method Activate(chosen: Option<Id>, now: int)
      requires Valid()
      requires chosen.Some? ==> chosen.value in notebooks && notebooks[chosen.value].archivedAt.None?
      modifies this`notebooks
      ensures Valid() && notebooks == Activated(old(notebooks), chosen, now)
      ensures forall n: Id :: IsActive(notebooks, n) <==> chosen == Some(n)
      ensures notebooks.Keys == old(notebooks).Keys
      ensures forall n :: n in notebooks ==>
                notebooks[n] == old(notebooks)[n].(active := chosen == Some(n),
                                                   updatedAt := if old(notebooks)[n].active == (chosen == Some(n))
                                                                then old(notebooks)[n].updatedAt else now)
    {
      NotebookEditKeepsShelf(Stored(), Activated(notebooks, chosen, now));
      notebooks := Activated(notebooks, chosen, now);
    }

    method SetActiveNotebook(chosen: Option<Id>, now: int) returns (failure: Option<CodeError>)
      requires Valid()
      modifies this`notebooks
      ensures Valid()
      ensures failure.None? ==> forall n: Id :: IsActive(notebooks, n) <==> chosen == Some(n)
      ensures failure.Some? ==> notebooks == old(notebooks)
      ensures failure == Some(NotebookArchived) <==>
                chosen.Some? && chosen.value in old(notebooks) && old(notebooks)[chosen.value].archivedAt.Some?
      ensures failure == Some(NotebookNotFound) <==> chosen.Some? && chosen.value !in old(notebooks)
      ensures failure.None? || failure == Some(NotebookArchived) || failure == Some(NotebookNotFound)
      ensures failure.None? ==> notebooks.Keys == old(notebooks).Keys && forall n :: n in notebooks ==>
                notebooks[n].(active := false, updatedAt := 0) == old(notebooks)[n].(active := false, updatedAt := 0)
    {
      if chosen.Some? {
        if chosen.value !in notebooks {
          return Some(NotebookNotFound);
        }
        if notebooks[chosen.value].archivedAt.Some? {
          return Some(NotebookArchived);
        }
      }
      Activate(chosen, now);
      return None;
    }

    method RenameNotebook(id: Id, name: string, now: int) returns (failure: Option<CodeError>)
      requires Valid()
      modifies this`notebooks
      ensures Valid()
      ensures failure.None? ==>
                && id in old(notebooks)
                && notebooks == old(notebooks)[id := old(notebooks)[id].(name := Trimmed(name), updatedAt := now)]
      ensures failure.Some? ==> notebooks == old(notebooks)
      ensures failure == if id !in old(notebooks) then Some(NotebookNotFound)
                         else if Trimmed(name) == "" || Utf8Length(Trimmed(name)) > 200 then Some(NameInvalid) else None
    {
      if id !in notebooks {
        return Some(NotebookNotFound);
      }
      if !NameAllowed(Trimmed(name)) {
        return Some(NameInvalid);
      }
      ActiveStays(notebooks, id, notebooks[id].(name := Trimmed(name), updatedAt := now));
      NotebookEditKeepsShelf(Stored(), notebooks[id := notebooks[id].(name := Trimmed(name), updatedAt := now)]);
      notebooks := notebooks[id := notebooks[id].(name := Trimmed(name), updatedAt := now)];
      return None;
    }

    /** An archived notebook is never the active one. */
    method ArchiveNotebook(id: Id, now: int) returns (failure: Option<CodeError>)
      requires Valid()
      modifies this`notebooks
      ensures Valid()
      ensures failure.None? <==> id in old(notebooks)
      ensures failure.None? ==>
                && notebooks == old(notebooks)[id := ArchivedNotebook(old(notebooks)[id], now)]
                && notebooks[id].archivedAt.Some? && !notebooks[id].active
                && (if old(notebooks)[id].archivedAt.Some? then notebooks == old(notebooks)
                    else notebooks == old(notebooks)[id := old(notebooks)[id].(archivedAt := Some(now), active := false,
                                                                               updatedAt := now)])
      ensures failure.Some? ==> failure == Some(NotebookNotFound) && notebooks == old(notebooks)
    {
      if id !in notebooks {
        return Some(NotebookNotFound);
      }
      ActiveStays(notebooks, id, ArchivedNotebook(notebooks[id], now));
      NotebookEditKeepsShelf(Stored(), notebooks[id := ArchivedNotebook(notebooks[id], now)]);
      notebooks := notebooks[id := ArchivedNotebook(notebooks[id], now)];
      return None;
    }

    /** A set of smart pages with consecutive visible numbers, within what a code can print. */
    method RegisterPageSet(layout: Layout, pageSet: Id, first: nat, pageIds: seq<Id>, smartIds: seq<Id>)
      returns (failure: Option<CodeError>)
      requires Valid() && ValidLayout(layout) && |pageIds| == |smartIds|
      requires FreshPages(pages, pageIds) && FreshSmartIds(pages, smartIds)
      modifies this`pages
      ensures Valid()
      ensures failure.Some? ==> pages == old(pages)
      ensures failure.None? <==> 0 < |pageIds| && first + |pageIds| - 1 <= MAX_NUMERIC_FIELD
      ensures failure == Some(EmptyPageSet) <==> pageIds == []
      ensures failure == Some(NumberOutOfRange) <==> pageIds != [] && first + |pageIds| - 1 > 999_999
      ensures failure.None? ==> Smart(old(pages), pages, pageSet, first, layout, pageIds, smartIds)
    {
      if |pageIds| == 0 {
        return Some(EmptyPageSet);
      }
      if first + |pageIds| - 1 > MAX_NUMERIC_FIELD {
        return Some(NumberOutOfRange);
      }
      ghost var before, shelf := pages, Stored();
      var inserted: map<Id, Page> := pages;
      assert pageIds[..0] == [] && smartIds[..0] == [];
      for k := 0 to |pageIds|
        invariant Stored() == shelf
        invariant Smart(before, inserted, pageSet, first, layout, pageIds[..k], smartIds[..k])
      {
        SmartOneMore(before, inserted, pageSet, first, layout, pageIds, smartIds, k);
        inserted := inserted[pageIds[k] := Page(SmartPage(smartIds[k], Some(pageSet), Some(first + k)), layout)];
      }
      assert pageIds[..|pageIds|] == pageIds && smartIds[..|smartIds|] == smartIds;
      SmartPagesKeepShelf(Stored(), inserted, pageSet, first, layout, pageIds, smartIds);
      pages := inserted;
      return None;
    }

    method FindNotebookPage(n: Id, number: nat) returns (found: Option<Id>)
      requires Valid()
      ensures found == FindSlot(pages, n, number)
    {
      var slots := set p | p in pages && IsSlot(pages, p, n, number);
      if slots == {} {
        assert forall p :: IsSlot(pages, p, n, number) ==> p in slots;
        return None;
      }
      var p :| p in slots;
      return Some(p);
    }

    method FindSmartPage(smartId: Id) returns (found: Option<Id>)
      requires Valid()
      ensures found == FindSmart(pages, smartId)
    {
      var matches := set p | p in pages && IsSmart(pages, p, smartId);
      if matches == {} {
        assert forall p :: IsSmart(pages, p, smartId) ==> p in matches;
        return None;
      }
      var p :| p in matches;
      return Some(p);
    }

    method GetActiveNotebook() returns (found: Option<Id>)
      requires Valid()
      ensures found == FindActive(notebooks)
    {
      var active := set n | n in notebooks && IsActive(notebooks, n);
      if active == {} {
        assert forall n: Id :: IsActive(notebooks, n) ==> n in active;
        return None;
      }
      var n :| n in active;
      return Some(n);
    }

    method SlotPage(n: Id, number: nat) returns (result: Result<Resolution, CodeError>)
      requires Valid()
      ensures result == SlotResolution(Stored(), n, number)
    {
      var page := FindNotebookPage(n, number);
      return if page.Some? then Ok(Resolved(page.value, Some(n))) else Err(SlotMissing);
    }

    method ResolveNotebookCode(build: Build, design: Id, number: nat, layout: Layout, confirmed: Option<Id>)
      returns (result: Result<Resolution, CodeError>)
      requires Valid()
      ensures result == ResolveNotebookPage(build, Stored(), design, number, layout, confirmed)
    {
      var available := AvailableDesign(build, Stored(), design);
      if available.None? {
        return Ok(Unsupported);
      }
      if number == 0 || number > available.value.pageCount || layout != available.value.pageLayout {
        return Ok(Unsupported);
      }
      var selected := confirmed;
      if confirmed.Some? {
        if confirmed.value !in notebooks {
          return Err(NotebookNotFound);
        }
      } else {
        selected := GetActiveNotebook();
      }
      if selected.Some? {
        if notebooks[selected.value].design != design {
          return Ok(ConflictingActive(selected.value, design));
        }
        if notebooks[selected.value].archivedAt.Some? {
          return Err(NotebookArchived);
        }
        result := SlotPage(selected.value, number);
        return;
      }
      var candidates := Candidates(notebooks, design);
      if candidates == {} {
        return Ok(RequiresRegistration(design));
      }
      if |candidates| != 1 {
        return Ok(RequiresSelection(candidates));
      }
      var only :| only in candidates;
      OneCandidate(candidates, only);
      result := SlotPage(only, number);
    }

    /** What a scanned payload means, given the notebook the user confirmed, if any. */
    method ResolvePageCode(build: Build, payload: string, confirmed: Option<Id>)
      returns (result: Result<Resolution, CodeError>)
      requires Valid()
      ensures result == Resolve(build, Stored(), payload, confirmed)
      ensures result != Err(SlotMissing)
    {
      SlotsAreNeverMissing(build, Stored(), payload, confirmed);
      var parsed := ParsePayload(build, payload);
      match parsed
      case Err(e) => return Err(PayloadInvalid(e));
      case Ok(code) =>
        match code
        case NotebookSetup(_) => return Ok(Unsupported);
        case SmartPageCode(smartPage, layout, visible, pageSet) =>
          var page := FindSmartPage(smartPage);
          return if page.Some? then Ok(Resolved(page.value, None))
                 else Ok(ImportedUnknownSmartPage(smartPage, layout, visible, pageSet));
        case NotebookPageCode(design, number, layout) =>
          result := ResolveNotebookCode(build, design, number, layout, confirmed);
    }

    method StoredPageCodePayload(build: Build, page: Id) returns (result: Result<string, CodeError>)
      requires Valid()
      ensures result == StoredCode(build, Stored(), page)
      ensures result.Ok? <==> page in pages
    {
      if page !in pages {
        return Err(PageNotFound);
      }
      StoredCodeParses(build, Stored(), page);
      var code := match pages[page].kind
        case NotebookPage(_, design, number) => NotebookPageCode(design, number, pages[page].layout)
        case SmartPage(smartId, pageSet, visible) => SmartPageCode(smartId, pages[page].layout, visible, pageSet);
      var payload := Encode(build.checksum, code);
      return if payload.Some? then Ok(payload.value) else Err(NumberOutOfRange);
    }
  }

  lemma OneCandidate(s: set<Id>, a: Id)
    requires |s| == 1 && a in s
    ensures forall b :: b in s ==> b == a
  {
    assert |s - {a}| == 0;
    assert s - {a} == {};
    assert forall b :: b in s && b != a ==> b in s - {a};
  }
}
