/**
 * Notebooks, their pages, and the codes printed on them: creating and archiving notebooks, projecting
 * a stored page to its code, and resolving a code back to a page.
 */
module PageCodes {
  import opened Prelude
  import opened IdCodec
  import opened QrCodes

  const MAX_LOGICAL_PAGES := 1_000
  const MAX_NAME_BYTES := 200

  datatype Trust = Trusted | Unverified | Revoked

  datatype Design = Design(setupLayout: Layout, pageLayout: Layout, pageCount: nat, trust: Trust, hash: string)

  datatype Notebook = Notebook(
    design: Id,
    name: string,
    createdAt: int,
    updatedAt: int,
    archivedAt: Option<int>,
    active: bool
  )

  datatype PageKind =
    | NotebookPage(notebook: Id, design: Id, number: nat)
    | SmartPage(smartId: Id, pageSet: Option<Id>, visible: Option<nat>)

  datatype Page = Page(kind: PageKind, layout: Layout)

  datatype Shelf = Shelf(designs: map<Id, Design>, notebooks: map<Id, Notebook>, pages: map<Id, Page>)

  /** What a build of the application brings along: one bundled design, the smart page layouts, and
      the checksum of the payload format. */
  datatype Build = Build(bundledId: Id, bundled: Option<Design>, smartLayouts: set<Layout>, checksum: Checksum)

  datatype CodeError =
    | PayloadInvalid(cause: ParseError)
    | NotASetupCode
    | DesignUnavailable
    | DesignRevoked
    | DesignConflict
    | NameInvalid
    | NotebookNotFound
    | NotebookArchived
    | SlotMissing
    | PageNotFound
    | NumberOutOfRange
    | TargetConflict
    | NotebookRequired
    | EmptyPageSet

  datatype Resolution =
    | Resolved(page: Id, notebook: Option<Id>)
    | RequiresSelection(candidates: set<Id>)
    | RequiresRegistration(design: Id)
    | ConflictingActive(active: Id, detected: Id)
    | ImportedUnknownSmartPage(smartPage: Id, layout: Layout, visible: Option<nat>, pageSet: Option<Id>)
    | Unsupported

  // ---- the build ---------------------------------------------------------------------------------

  function Bundled(build: Build, id: Id): Option<Design> {
    if id == build.bundledId then build.bundled else None
  }

  predicate Known(build: Build, layout: Layout) {
    || (build.bundled.Some?
        && (build.bundled.value.setupLayout == layout || build.bundled.value.pageLayout == layout))
    || layout in build.smartLayouts
  }

  function KnownTo(build: Build): Layout -> bool {
    layout => Known(build, layout)
  }

  function ParsePayload(build: Build, payload: string): Result<PageCode, ParseError> {
    Parse(build.checksum, KnownTo(build), payload)
  }

  /** A stored design wins over the bundled one of the same id. */
  function AvailableDesign(build: Build, shelf: Shelf, id: Id): Option<Design> {
    if id in shelf.designs then Some(shelf.designs[id]) else Bundled(build, id)
  }

  predicate DesignOk(d: Design) {
    1 <= d.pageCount <= MAX_LOGICAL_PAGES && ValidLayout(d.pageLayout) && ValidLayout(d.setupLayout)
  }

  predicate BuildOk(build: Build) {
    && (build.bundled.Some? ==> DesignOk(build.bundled.value))
    && forall l :: l in build.smartLayouts ==> ValidLayout(l)
  }

  // ---- lookups -----------------------------------------------------------------------------------

  predicate IsSlot(pages: map<Id, Page>, p: Id, notebook: Id, number: nat) {
    && p in pages && pages[p].kind.NotebookPage?
    && pages[p].kind.notebook == notebook && pages[p].kind.number == number
  }

  predicate IsSmart(pages: map<Id, Page>, p: Id, smartId: Id) {
    p in pages && pages[p].kind.SmartPage? && pages[p].kind.smartId == smartId
  }

  ghost function FindSlot(pages: map<Id, Page>, notebook: Id, number: nat): (found: Option<Id>)
    ensures found.Some? ==> IsSlot(pages, found.value, notebook, number)
    ensures found.None? ==> forall p :: !IsSlot(pages, p, notebook, number)
  {
    if exists p :: IsSlot(pages, p, notebook, number) then
      var p :| IsSlot(pages, p, notebook, number);
      Some(p)
    else None
  }

  ghost function FindSmart(pages: map<Id, Page>, smartId: Id): (found: Option<Id>)
    ensures found.Some? ==> IsSmart(pages, found.value, smartId)
    ensures found.None? ==> forall p :: !IsSmart(pages, p, smartId)
  {
    if exists p :: IsSmart(pages, p, smartId) then
      var p :| IsSmart(pages, p, smartId);
      Some(p)
    else None
  }

  predicate IsActive(notebooks: map<Id, Notebook>, n: Id) {
    n in notebooks && notebooks[n].active
  }

  ghost function FindActive(notebooks: map<Id, Notebook>): (found: Option<Id>)
    ensures found.Some? ==> IsActive(notebooks, found.value)
    ensures found.None? ==> forall n :: !IsActive(notebooks, n)
  {
    if exists n :: IsActive(notebooks, n) then
      var n :| IsActive(notebooks, n);
      Some(n)
    else None
  }

  function Candidates(notebooks: map<Id, Notebook>, design: Id): set<Id> {
    set n | n in notebooks && notebooks[n].design == design && notebooks[n].archivedAt.None?
  }

  // ---- what every shelf keeps ----------------------------------------------------------------------

  ghost predicate PageFits(shelf: Shelf, page: Page) {
    match page.kind
    case NotebookPage(n, d, number) =>
      && n in shelf.notebooks && shelf.notebooks[n].design == d && d in shelf.designs
      && 1 <= number <= shelf.designs[d].pageCount
      && page.layout == shelf.designs[d].pageLayout
    case SmartPage(_, _, visible) =>
      ValidLayout(page.layout) && (visible.Some? ==> visible.value <= MAX_NUMERIC_FIELD)
  }

  ghost predicate SlotsUnique(pages: map<Id, Page>) {
    forall p, q, n, k :: IsSlot(pages, p, n, k) && IsSlot(pages, q, n, k) ==> p == q
  }

  ghost predicate SmartIdsUnique(pages: map<Id, Page>) {
    forall p, q, s :: IsSmart(pages, p, s) && IsSmart(pages, q, s) ==> p == q
  }

  ghost predicate HasSlot(pages: map<Id, Page>, n: Id, k: nat) {
    exists p :: IsSlot(pages, p, n, k)
  }

  /** A registered notebook has a page for every number of its design. */
  ghost predicate SlotsComplete(shelf: Shelf) {
    forall n, k :: n in shelf.notebooks && 1 <= k <= DesignCount(shelf, n) ==> HasSlot(shelf.pages, n, k)
  }

  function DesignCount(shelf: Shelf, n: Id): nat
    requires n in shelf.notebooks
  {
    var d := shelf.notebooks[n].design;
    if d in shelf.designs then shelf.designs[d].pageCount else 0
  }

  ghost predicate OneActive(notebooks: map<Id, Notebook>) {
    forall a, b :: IsActive(notebooks, a) && IsActive(notebooks, b) ==> a == b
  }

  ghost predicate ShelfOk(shelf: Shelf) {
    && (forall d :: d in shelf.designs ==> DesignOk(shelf.designs[d]))
    && (forall n :: n in shelf.notebooks ==> shelf.notebooks[n].design in shelf.designs)
    && (forall p :: p in shelf.pages ==> PageFits(shelf, shelf.pages[p]))
    && SlotsUnique(shelf.pages) && SmartIdsUnique(shelf.pages) && SlotsComplete(shelf)
    && OneActive(shelf.notebooks)
    && (forall n :: n in shelf.notebooks && shelf.notebooks[n].archivedAt.Some? ==> !shelf.notebooks[n].active)
  }

  // ---- projecting and resolving --------------------------------------------------------------------

  function CodeOf(page: Page): PageCode {
    match page.kind
    case NotebookPage(_, design, number) => NotebookPageCode(design, number, page.layout)
    case SmartPage(smartId, pageSet, visible) => SmartPageCode(smartId, page.layout, visible, pageSet)
  }

  function StoredCode(build: Build, shelf: Shelf, p: Id): Result<string, CodeError> {
    if p !in shelf.pages then Err(PageNotFound)
    else
      match Encode(build.checksum, CodeOf(shelf.pages[p]))
      case Some(payload) => Ok(payload)
      case None => Err(NumberOutOfRange)
  }

  ghost function SlotResolution(shelf: Shelf, n: Id, number: nat): Result<Resolution, CodeError> {
    match FindSlot(shelf.pages, n, number)
    case Some(p) => Ok(Resolved(p, Some(n)))
    case None => Err(SlotMissing)
  }

  ghost function ResolveInNotebook(shelf: Shelf, n: Id, design: Id, number: nat): Result<Resolution, CodeError>
    requires n in shelf.notebooks
  {
    if shelf.notebooks[n].design != design then Ok(ConflictingActive(n, design))
    else if shelf.notebooks[n].archivedAt.Some? then Err(NotebookArchived)
    else SlotResolution(shelf, n, number)
  }

  ghost function ResolveNotebookPage(build: Build, shelf: Shelf, design: Id, number: nat, layout: Layout,
                                     confirmed: Option<Id>): Result<Resolution, CodeError>
  {
    match AvailableDesign(build, shelf, design)
    case None => Ok(Unsupported)
    case Some(d) =>
      if number == 0 || number > d.pageCount || layout != d.pageLayout then Ok(Unsupported)
      else if confirmed.Some? && confirmed.value !in shelf.notebooks then Err(NotebookNotFound)
      else
        var selected := if confirmed.Some? then confirmed else FindActive(shelf.notebooks);
        if selected.Some? then ResolveInNotebook(shelf, selected.value, design, number)
        else
          var candidates := Candidates(shelf.notebooks, design);
          if candidates == {} then Ok(RequiresRegistration(design))
          else if |candidates| == 1 then
            var only :| only in candidates;
            SlotResolution(shelf, only, number)
          else Ok(RequiresSelection(candidates))
  }

  ghost function ResolveCode(build: Build, shelf: Shelf, code: PageCode, confirmed: Option<Id>)
    : Result<Resolution, CodeError>
  {
    match code
    case NotebookSetup(_) => Ok(Unsupported)
    case SmartPageCode(smartPage, layout, visible, pageSet) =>
      (match FindSmart(shelf.pages, smartPage)
       case Some(p) => Ok(Resolved(p, None))
       case None => Ok(ImportedUnknownSmartPage(smartPage, layout, visible, pageSet)))
    case NotebookPageCode(design, number, layout) =>
      ResolveNotebookPage(build, shelf, design, number, layout, confirmed)
  }

  ghost function Resolve(build: Build, shelf: Shelf, payload: string, confirmed: Option<Id>)
    : Result<Resolution, CodeError>
  {
    match ParsePayload(build, payload)
    case Err(e) => Err(PayloadInvalid(e))
    case Ok(code) => ResolveCode(build, shelf, code, confirmed)
  }

  /** The check registration repeats on the stored page before it writes. */
  function ValidateTarget(page: Page, code: PageCode, active: Option<Id>): Result<(), CodeError> {
    if page.kind.NotebookPage? && code.NotebookPageCode? then
      if active.None? then Err(NotebookRequired)
      else if && page.kind.notebook == active.value
              && page.kind.design == code.design
              && page.kind.number == code.number
              && page.layout == code.layout then Ok(())
      else Err(TargetConflict)
    else if && page.kind.SmartPage? && code.SmartPageCode?
            && active.None?
            && page.kind.smartId == code.smartPage
            && page.kind.pageSet == code.pageSet
            && page.kind.visible == code.visible
            && page.layout == code.layout then Ok(())
    else Err(TargetConflict)
  }

  // ---- theorems about every shelf ------------------------------------------------------------------

  lemma PageCodeFits(shelf: Shelf, p: Id)
    requires ShelfOk(shelf) && p in shelf.pages
    ensures NumbersFit(CodeOf(shelf.pages[p])) && ValidLayout(shelf.pages[p].layout)
  {
    assert PageFits(shelf, shelf.pages[p]);
  }

  lemma StoredCodeParses(build: Build, shelf: Shelf, p: Id)
    requires ShelfOk(shelf) && p in shelf.pages
    ensures StoredCode(build, shelf, p).Ok?
    ensures var layout, parsed := shelf.pages[p].layout, ParsePayload(build, StoredCode(build, shelf, p).value);
            if layout in build.smartLayouts
               || exists d :: build.bundled == Some(d) && (layout == d.pageLayout || layout == d.setupLayout)
            then parsed == Ok(CodeOf(shelf.pages[p])) else parsed.Err?
  {
    PageCodeFits(shelf, p);
    var code, payload := CodeOf(shelf.pages[p]), StoredCode(build, shelf, p).value;
    PayloadsAreCanonical(build.checksum, KnownTo(build), payload, code);
    if ParsePayload(build, payload).Ok? {
      var read := ParsePayload(build, payload).value;
      PayloadsAreCanonical(build.checksum, KnownTo(build), payload, read);
      EncodeIsInjective(build.checksum, code, read, payload);
    }
  }

  /** Two codes with one text are one code: the text says every field. */
  lemma EncodeIsInjective(checksum: Checksum, a: PageCode, b: PageCode, payload: string)
    requires Encode(checksum, a) == Some(payload) && Encode(checksum, b) == Some(payload)
    requires CodeLayoutOk(a) && CodeLayoutOk(b)
    ensures a == b
  {
    PayloadsAreCanonical(checksum, layout => true, payload, a);
    PayloadsAreCanonical(checksum, layout => true, payload, b);
  }

  predicate CodeLayoutOk(code: PageCode) {
    match code
    case NotebookSetup(_) => true
    case NotebookPageCode(_, _, layout) => ValidLayout(layout)
    case SmartPageCode(_, layout, _, _) => ValidLayout(layout)
  }

  /** The stored code of a notebook page, with its notebook confirmed, resolves to exactly that page,
      as long as the notebook is not archived and the build knows the layout; otherwise it is refused. */
  lemma NotebookCodeRoundTrip(build: Build, shelf: Shelf, p: Id)
    requires ShelfOk(shelf) && p in shelf.pages && shelf.pages[p].kind.NotebookPage?
    ensures StoredCode(build, shelf, p).Ok?
    ensures var n := shelf.pages[p].kind.notebook;
            var result := Resolve(build, shelf, StoredCode(build, shelf, p).value, Some(n));
            && n in shelf.notebooks
            && (result == Ok(Resolved(p, Some(n))) <==>
                  shelf.notebooks[n].archivedAt.None? && Known(build, shelf.pages[p].layout))
            && (result.Ok? ==> result == Ok(Resolved(p, Some(n))))
  {
    StoredCodeParses(build, shelf, p);
    var page := shelf.pages[p];
    assert PageFits(shelf, page);
    assert IsSlot(shelf.pages, p, page.kind.notebook, page.kind.number);
  }

  /** The stored code of a smart page resolves to exactly that page whenever the build knows the layout. */
  lemma SmartCodeRoundTrip(build: Build, shelf: Shelf, p: Id, confirmed: Option<Id>)
    requires ShelfOk(shelf) && p in shelf.pages && shelf.pages[p].kind.SmartPage?
    ensures StoredCode(build, shelf, p).Ok?
    ensures Resolve(build, shelf, StoredCode(build, shelf, p).value, confirmed) == Ok(Resolved(p, None))
            <==> Known(build, shelf.pages[p].layout)
  {
    StoredCodeParses(build, shelf, p);
    assert IsSmart(shelf.pages, p, shelf.pages[p].kind.smartId);
  }

  lemma SlotIsThere(shelf: Shelf, n: Id, number: nat)
    requires ShelfOk(shelf) && n in shelf.notebooks && 1 <= number <= DesignCount(shelf, n)
    ensures FindSlot(shelf.pages, n, number).Some?
  {
    assert HasSlot(shelf.pages, n, number);
  }

  /** No code and no confirmed notebook ever finds a page slot missing. */
  lemma SlotsAreNeverMissing(build: Build, shelf: Shelf, payload: string, confirmed: Option<Id>)
    requires ShelfOk(shelf)
    ensures Resolve(build, shelf, payload, confirmed) != Err(SlotMissing)
  {
    match ParsePayload(build, payload)
    case Ok(NotebookPageCode(design, number, layout)) =>
      forall n | n in shelf.notebooks && shelf.notebooks[n].design == design && number >= 1
                 && AvailableDesign(build, shelf, design).Some?
                 && number <= AvailableDesign(build, shelf, design).value.pageCount
        ensures FindSlot(shelf.pages, n, number).Some?
      {
        SlotIsThere(shelf, n, number);
      }
    case _ =>
  }

  /** With its notebook confirmed, a code resolves to a stored page exactly when it passes the check registration
      makes on that page, as long as the notebook is not archived. */
  lemma NotebookTargetsAreResolutions(build: Build, shelf: Shelf, payload: string, p: Id, n: Id)
    requires ShelfOk(shelf) && p in shelf.pages && shelf.pages[p].kind.NotebookPage?
    requires ParsePayload(build, payload).Ok?
    ensures Resolve(build, shelf, payload, Some(n)) == Ok(Resolved(p, Some(n))) <==>
            && ValidateTarget(shelf.pages[p], ParsePayload(build, payload).value, Some(n)) == Ok(())
            && n in shelf.notebooks && shelf.notebooks[n].archivedAt.None?
  {
    var page, code := shelf.pages[p], ParsePayload(build, payload).value;
    if Resolve(build, shelf, payload, Some(n)) == Ok(Resolved(p, Some(n))) {
      ResolvedNotebookPageIsTarget(build, shelf, payload, Some(n), p, n);
    } else if ValidateTarget(page, code, Some(n)) == Ok(()) {
      assert PageFits(shelf, page);
      assert IsSlot(shelf.pages, p, n, code.number);
    }
  }

  /** A code that resolves to a notebook page passes the check registration makes on the stored page. */
  lemma ResolvedNotebookPageIsTarget(build: Build, shelf: Shelf, payload: string, confirmed: Option<Id>, p: Id, n: Id)
    requires ShelfOk(shelf) && Resolve(build, shelf, payload, confirmed) == Ok(Resolved(p, Some(n)))
    ensures p in shelf.pages && ParsePayload(build, payload).Ok?
    ensures ValidateTarget(shelf.pages[p], ParsePayload(build, payload).value, Some(n)) == Ok(())
    ensures confirmed.Some? ==> confirmed.value == n
    ensures shelf.notebooks[n].archivedAt.None?
  {
    var code := ParsePayload(build, payload).value;
    assert IsSlot(shelf.pages, p, n, code.number);
    assert PageFits(shelf, shelf.pages[p]);
  }

  /** A resolved smart page passes the check exactly when the code is the page's own stored code; an
      altered copy that keeps the smart page id resolves, but is refused as a target. */
  lemma ResolvedSmartPageIsTarget(build: Build, shelf: Shelf, payload: string, confirmed: Option<Id>, p: Id)
    requires ShelfOk(shelf) && Resolve(build, shelf, payload, confirmed) == Ok(Resolved(p, None))
    ensures p in shelf.pages && ParsePayload(build, payload).Ok?
    ensures ValidateTarget(shelf.pages[p], ParsePayload(build, payload).value, None) == Ok(())
            <==> StoredCode(build, shelf, p) == Ok(payload)
  {
    var code := ParsePayload(build, payload).value;
    PayloadsAreCanonical(build.checksum, KnownTo(build), payload, code);
    assert IsSmart(shelf.pages, p, code.smartPage);
    if StoredCode(build, shelf, p) == Ok(payload) {
      PageCodeFits(shelf, p);
      EncodeIsInjective(build.checksum, CodeOf(shelf.pages[p]), code, payload);
    }
  }

  // ---- what a code means, in so many words -----------------------------------------------------------

  /** The design a code names: the stored one, or the bundled one if none of that id is stored. */
  predicate Names(build: Build, shelf: Shelf, id: Id, d: Design) {
    if id in shelf.designs then d == shelf.designs[id] else id == build.bundledId && build.bundled == Some(d)
  }

  /** The page is one of the design's, printed with the design's layout. */
  predicate Prints(d: Design, number: nat, layout: Layout) {
    1 <= number <= d.pageCount && layout == d.pageLayout
  }

  /** A page of the design can be scanned into the notebook. */
  predicate Open(notebooks: map<Id, Notebook>, n: Id, design: Id) {
    n in notebooks && notebooks[n].design == design && notebooks[n].archivedAt.None?
  }

  ghost predicate OnlyOpen(notebooks: map<Id, Notebook>, n: Id, design: Id) {
    Open(notebooks, n, design) && forall m :: Open(notebooks, m, design) ==> m == n
  }

  ghost predicate ResolvedTo(shelf: Shelf, n: Id, number: nat, result: Result<Resolution, CodeError>) {
    exists p :: IsSlot(shelf.pages, p, n, number) && result == Ok(Resolved(p, Some(n)))
  }

  /** A notebook page code without a usable design, or outside of it, is not supported. */
  lemma ForeignCodeIsUnsupported(build: Build, shelf: Shelf, payload: string, design: Id, number: nat, layout: Layout,
                                 confirmed: Option<Id>)
    requires ParsePayload(build, payload) == Ok(NotebookPageCode(design, number, layout))
    ensures Resolve(build, shelf, payload, confirmed) == Ok(Unsupported) <==>
            forall d :: Names(build, shelf, design, d) ==> !Prints(d, number, layout)
  {
    if AvailableDesign(build, shelf, design).Some? {
      var d := AvailableDesign(build, shelf, design).value;
      assert Names(build, shelf, design, d);
      assert forall other :: Names(build, shelf, design, other) ==> other == d;
    }
  }

  lemma NamedIsAvailable(build: Build, shelf: Shelf, design: Id, d: Design)
    requires Names(build, shelf, design, d)
    ensures AvailableDesign(build, shelf, design) == Some(d)
  {}

  /** With a notebook confirmed, only that notebook counts. */
  lemma ConfirmedCodeMeans(build: Build, shelf: Shelf, payload: string, design: Id, number: nat, layout: Layout,
                           d: Design, n: Id)
    requires ShelfOk(shelf) && ParsePayload(build, payload) == Ok(NotebookPageCode(design, number, layout))
    requires Names(build, shelf, design, d) && Prints(d, number, layout)
    ensures var result := Resolve(build, shelf, payload, Some(n));
            && (n !in shelf.notebooks ==> result == Err(NotebookNotFound))
            && (n in shelf.notebooks && shelf.notebooks[n].design != design ==> result == Ok(ConflictingActive(n, design)))
            && (n in shelf.notebooks && shelf.notebooks[n].design == design && shelf.notebooks[n].archivedAt.Some? ==>
                  result == Err(NotebookArchived))
            && (Open(shelf.notebooks, n, design) ==> ResolvedTo(shelf, n, number, result))
  {
    NamedIsAvailable(build, shelf, design, d);
    if n in shelf.notebooks && shelf.notebooks[n].design == design {
      SlotIsThere(shelf, n, number);
    }
  }

  /** Without one, the active notebook counts; it has to be of the printed design. */
  lemma ActiveCodeMeans(build: Build, shelf: Shelf, payload: string, design: Id, number: nat, layout: Layout,
                        d: Design, n: Id)
    requires ShelfOk(shelf) && ParsePayload(build, payload) == Ok(NotebookPageCode(design, number, layout))
    requires Names(build, shelf, design, d) && Prints(d, number, layout) && IsActive(shelf.notebooks, n)
    ensures var result := Resolve(build, shelf, payload, None);
            && (shelf.notebooks[n].design == design ==> ResolvedTo(shelf, n, number, result))
            && (shelf.notebooks[n].design != design ==> result == Ok(ConflictingActive(n, design)))
  {
    NamedIsAvailable(build, shelf, design, d);
    if shelf.notebooks[n].design == design {
      SlotIsThere(shelf, n, number);
    }
  }

  lemma TwoAreMany<T>(s: set<T>, m: T, n: T)
    requires m in s && n in s && m != n
    ensures |s| != 1
  {
    assert |s| == |s - {m}| + 1;
    assert n in s - {m};
  }

  lemma OnlyCandidate(notebooks: map<Id, Notebook>, design: Id, n: Id)
    requires OnlyOpen(notebooks, n, design)
    ensures Candidates(notebooks, design) == {n}
  {
    forall m | m in Candidates(notebooks, design)
      ensures m == n
    {
      assert Open(notebooks, m, design);
    }
    assert n in Candidates(notebooks, design);
  }

  /** With none active the notebooks of the design that are not archived decide: the only one gets the page, none asks
      for a registration, and several for a choice between exactly those. */
  lemma InactiveCodeMeans(build: Build, shelf: Shelf, payload: string, design: Id, number: nat, layout: Layout,
                          d: Design)
    requires ShelfOk(shelf) && ParsePayload(build, payload) == Ok(NotebookPageCode(design, number, layout))
    requires Names(build, shelf, design, d) && Prints(d, number, layout)
    requires forall n :: !IsActive(shelf.notebooks, n)
    ensures var result := Resolve(build, shelf, payload, None);
            && ((forall n :: !Open(shelf.notebooks, n, design)) ==> result == Ok(RequiresRegistration(design)))
            && (forall n :: OnlyOpen(shelf.notebooks, n, design) ==> ResolvedTo(shelf, n, number, result))
            && (forall m, n :: Open(shelf.notebooks, m, design) && Open(shelf.notebooks, n, design) && m != n ==>
                  && result.Ok? && result.value.RequiresSelection?
                  && forall o :: o in result.value.candidates <==> Open(shelf.notebooks, o, design))
  {
    NamedIsAvailable(build, shelf, design, d);
    var candidates := Candidates(shelf.notebooks, design);
    assert forall n: Id :: n in candidates <==> Open(shelf.notebooks, n, design);
    forall n | n in candidates
      ensures FindSlot(shelf.pages, n, number).Some?
    {
      SlotIsThere(shelf, n, number);
    }
    forall n: Id | OnlyOpen(shelf.notebooks, n, design)
      ensures candidates == {n}
    {
      OnlyCandidate(shelf.notebooks, design, n);
    }
    forall m, n | m in candidates && n in candidates && m != n
      ensures |candidates| != 1
    {
      TwoAreMany(candidates, m, n);
    }
  }

  /** A smart page code needs no notebook: the page of that id, or what the code says of an unknown one. */
  lemma SmartCodeMeans(build: Build, shelf: Shelf, payload: string, smart: Id, layout: Layout, visible: Option<nat>,
                       pageSet: Option<Id>, confirmed: Option<Id>)
    requires ShelfOk(shelf) && ParsePayload(build, payload) == Ok(SmartPageCode(smart, layout, visible, pageSet))
    ensures var result := Resolve(build, shelf, payload, confirmed);
            && (forall p :: IsSmart(shelf.pages, p, smart) ==> result == Ok(Resolved(p, None)))
            && ((forall p :: !IsSmart(shelf.pages, p, smart)) ==>
                  result == Ok(ImportedUnknownSmartPage(smart, layout, visible, pageSet)))
  {}

  /** The check registration repeats accepts a code exactly for the page whose own code it is, with the notebook of
      that page active, or with none for a smart page. */
  lemma TargetIsOwnCode(page: Page, code: PageCode, active: Option<Id>)
    ensures ValidateTarget(page, code, active) == Ok(()) <==>
            && CodeOf(page) == code
            && active == if page.kind.NotebookPage? then Some(page.kind.notebook) else None
    ensures ValidateTarget(page, code, active) == Err(NotebookRequired) <==>
            page.kind.NotebookPage? && code.NotebookPageCode? && active.None?
  {}

  // ---- altered copies --------------------------------------------------------------------------------

  /** The page's code with another visible number. */
  function Altered(page: Page): PageCode
    requires page.kind.SmartPage?
  {
    SmartPageCode(page.kind.smartId, page.layout, Some(if page.kind.visible == Some(1) then 2 else 1), page.kind.pageSet)
  }

  /** Every smart page whose layout the build knows has an altered copy of its code, with a right checksum, that
      resolves to the page and is refused as a target. */
  lemma AlteredCopyResolves(build: Build, shelf: Shelf, p: Id, confirmed: Option<Id>) returns (payload: string)
    requires ShelfOk(shelf) && p in shelf.pages && shelf.pages[p].kind.SmartPage?
    requires Known(build, shelf.pages[p].layout)
    ensures ParsePayload(build, payload) == Ok(Altered(shelf.pages[p]))
    ensures Resolve(build, shelf, payload, confirmed) == Ok(Resolved(p, None))
    ensures ValidateTarget(shelf.pages[p], Altered(shelf.pages[p]), None) == Err(TargetConflict)
    ensures StoredCode(build, shelf, p) != Ok(payload)
  {
    var code := Altered(shelf.pages[p]);
    payload := Encode(build.checksum, code).value;
    PageCodeFits(shelf, p);
    PayloadsAreCanonical(build.checksum, KnownTo(build), payload, code);
    assert IsSmart(shelf.pages, p, code.smartPage);
    ResolvedSmartPageIsTarget(build, shelf, payload, confirmed, p);
  }

  function SmallBuild(checksum: Checksum): Build {
    Build(0, None, {"LINED"}, checksum)
  }

  const SMALL_SHELF := Shelf(map[], map[], map[3 := Page(SmartPage(5, None, Some(4)), "LINED")])

  /** There are such a shelf and such a code, whatever the checksum. */
  lemma SomeCopyResolves(checksum: Checksum) returns (payload: string)
    ensures BuildOk(SmallBuild(checksum)) && ShelfOk(SMALL_SHELF)
    ensures Resolve(SmallBuild(checksum), SMALL_SHELF, payload, None) == Ok(Resolved(3, None))
    ensures ParsePayload(SmallBuild(checksum), payload).Ok?
    ensures ValidateTarget(SMALL_SHELF.pages[3], ParsePayload(SmallBuild(checksum), payload).value, None)
            == Err(TargetConflict)
  {
    assert ValidLayout("LINED");
    assert PageFits(SMALL_SHELF, SMALL_SHELF.pages[3]);
    payload := AlteredCopyResolves(SmallBuild(checksum), SMALL_SHELF, 3, None);
  }
}
