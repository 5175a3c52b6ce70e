/** The page state the slideshow and modal code of script.js works on, as a
    value, and one step function per handler: `openModal`, `closeModal`,
    `showSlide`, `nextSlide`, `prevSlide`, the project-image and
    project-title click handlers, the publication link handler with its
    fetch outcome, `openPublicationsModal` and the keyboard handler. The
    class in ModalController performs the same steps in place. */
module ModalState {
  import opened JsValues
  import opened Text
  import opened Tracker
  import opened Catalog

  /** The four overlays of the page. */
  datatype Modal = PdfModal | ImageModal | PublicationsModal | DescriptionModal

  /** The element id of each overlay, which `openModal` reports. */
  function ModalId(m: Modal): (id: string)
    ensures id != ""
  {
    match m
    case PdfModal => "pdfModal"
    case ImageModal => "imageModal"
    case PublicationsModal => "publicationsModal"
    case DescriptionModal => "descriptionModal"
  }

  /** The 1x1 transparent GIF `closeModal` puts into emptied image elements. */
  const BlankImage: string := "data:image/gif;base64,R0lGODlhAQABAIAAAAAAAP///yH5BAEAAAAALAAAAAABAAEAAAIBRAA7"

  /** What the PDF viewer shows while empty. */
  const AboutBlank: string := "about:blank"

  /** The viewer options appended to a blob URL. */
  const ViewerFlags: string := "#toolbar=0&navpanes=0"

  /** The `contextData` argument of `openModal`. */
  datatype OpenContext = OpenContext(projectId: Option<string>, pdfPath: Option<string>)

  /** How a PDF fetch ended: a blob URL from `URL.createObjectURL`, or an
      error (a failed request or a non-OK response). */
  datatype LoadOutcome = Loaded(blobUrl: string) | Failed

  /** One entry of `publicationsData`. */
  datatype Publication = Publication(title: string, filePath: string)

  /** What the title handler copies from a project card into the description
      overlay: the title's text, the card image's `src` and `alt`, and the
      description's HTML. */
  datatype DescriptionSource = DescriptionSource(titleText: string, imageSrc: string, imageAlt: string, html: string)

  /** What the slideshow overlay displays: the image's `src`, `alt` and
      rotation in degrees, the counter text, and whether the counter and
      the arrows are displayed. */
  datatype SlideView = SlideView(src: string, alt: string, rotation: int, counterText: string, navVisible: bool)

  /** What the description overlay displays: its title, its image's `src`
      and `alt`, and its text. */
  datatype DescriptionView = DescriptionView(title: string, imageSrc: string, imageAlt: string, text: string)

  /** The controller variables of script.js (lines 375-378), the overlays
      that carry the `show` class, the page's scroll lock, what the overlays
      display, the blob URLs revoked so far and the tracker calls made so
      far. */
  datatype PageState = PageState(
    currentSlide: int,
    currentProjectData: Option<ProjectEntry>,
    currentPdfBlobUrl: Option<string>,
    currentPdfOriginalPath: Option<string>,
    shown: set<Modal>,
    scrollLocked: bool,
    slide: SlideView,
    pdfViewerSrc: string,
    desc: DescriptionView,
    revoked: seq<string>,
    calls: seq<TrackerCall>)

  /** The state once the script has loaded: slide 1, nothing open, and the
      page view sent. */
  function Initial(): (s: PageState)
    ensures s.currentSlide == 1 && s.currentProjectData.None?
    ensures s.currentPdfBlobUrl.None? && s.currentPdfOriginalPath.None?
    ensures s.shown == {}
    ensures s.revoked == [] && s.calls == [TrackEvent("pageview", NoDetails)]
  {
    PageState(1, None, None, None, {}, false, SlideView("", "", 0, "", true), "",
              DescriptionView("", "", "", ""), [], [TrackEvent("pageview", NoDetails)])
  }


  /** The slideshow data, when present, has at least one slide. */
  predicate HasSlides(s: PageState)
  {
    s.currentProjectData.Some? ==> s.currentProjectData.value.totalSlides >= 1
  }

  /** The invariant the handlers keep: the slideshow data is a catalog entry
      whose slide number is in range, and it is present exactly while the
      slideshow overlay is shown. */
  predicate Valid(s: PageState)
  {
    s.currentSlide >= 1 &&
    (s.currentProjectData.Some? ==>
      s.currentProjectData.value in SlideshowData.Values &&
      s.currentSlide <= s.currentProjectData.value.totalSlides) &&
    (ImageModal in s.shown <==> s.currentProjectData.Some?)
  }

  lemma ValidHasSlides(s: PageState)
    requires Valid(s)
    ensures HasSlides(s)
  {
    CatalogTotalsPositive();
  }

  // ---------------------------------------------------------------------
  // openModal
  // ---------------------------------------------------------------------

  /** The context `openModal` builds for `trackModalOpen`: the given project
      id, or else the given PDF path as detail; then, per overlay, the
      slideshow prefix (and the id stripped from it), the PDF's original path
      or the viewer's `src` (and the id inferred from the path), the
      description title, or the fixed text `Publication List`. */
  function TrackerContext(s: PageState, m: Modal, ctx: OpenContext): (tc: ModalContext)
    ensures tc.pdfPath.None? && tc.context.None?
    ensures Truthy(ctx.projectId) ==> tc.projectId == ctx.projectId
    ensures m == ImageModal && s.currentProjectData.Some? ==>
      tc.detail == Some(s.currentProjectData.value.prefix) &&
      (Truthy(tc.projectId) <==>
        Truthy(ctx.projectId) || ProjectIdFromPrefix(s.currentProjectData.value.prefix) != "")
    ensures m == ImageModal && s.currentProjectData.Some? && !Truthy(ctx.projectId) ==>
      tc.projectId == Some(ProjectIdFromPrefix(s.currentProjectData.value.prefix))
    ensures (m == ImageModal && s.currentProjectData.None?) || m == DescriptionModal || m == PublicationsModal ==>
      tc.projectId == (if Truthy(ctx.projectId) then ctx.projectId else None)
    ensures m == ImageModal && s.currentProjectData.None? ==>
      tc.detail == (if !Truthy(ctx.projectId) && Truthy(ctx.pdfPath) then ctx.pdfPath else None)
    ensures m == DescriptionModal ==> tc.detail == Some(s.desc.title)
    ensures m == PublicationsModal ==> tc.detail == Some("Publication List")
    ensures m == PdfModal ==>
      tc.detail == Some(if Truthy(s.currentPdfOriginalPath) then s.currentPdfOriginalPath.value else s.pdfViewerSrc)
    ensures m == PdfModal && !Truthy(ctx.projectId) && Truthy(s.currentPdfOriginalPath) ==>
      tc.projectId == Some(InferIdFromPath(s.currentPdfOriginalPath.value))
    ensures m == PdfModal && !Truthy(ctx.projectId) && !Truthy(s.currentPdfOriginalPath) ==> tc.projectId.None?
  {
    var pid := if Truthy(ctx.projectId) then ctx.projectId else None;
    var detail := if !Truthy(ctx.projectId) && Truthy(ctx.pdfPath) then ctx.pdfPath else None;
    match m
    case ImageModal =>
      if s.currentProjectData.Some? then
        var prefix := s.currentProjectData.value.prefix;
        ModalContext(Some(prefix), None, Or(pid, Some(ProjectIdFromPrefix(prefix))), None)
      else
        ModalContext(detail, None, pid, None)
    case PdfModal =>
      var pid' := if !Truthy(pid) && Truthy(s.currentPdfOriginalPath)
                  then Some(InferIdFromPath(s.currentPdfOriginalPath.value)) else pid;
      ModalContext(Or(s.currentPdfOriginalPath, Some(s.pdfViewerSrc)), None, pid', None)
    case DescriptionModal =>
      ModalContext(Some(s.desc.title), None, pid, None)
    case PublicationsModal =>
      ModalContext(Some("Publication List"), None, pid, None)
  }

  /** The `trackModalOpen` call `openModal(m, ctx)` makes in state `s`. */
  function OpenEvent(s: PageState, m: Modal, ctx: OpenContext): (c: TrackerCall)
    ensures c.TrackModalOpenCall? && c.modalId == ModalId(m)
    ensures c.modalContext == TrackerContext(s, m, ctx)
  {
    TrackModalOpenCall(ModalId(m), TrackerContext(s, m, ctx))
  }

  /** `openModal(m, ctx)`: send `modal_open`, show the overlay and lock page
      scrolling. Other overlays stay as they are. */
  function OpenModalStep(s: PageState, m: Modal, ctx: OpenContext): (r: PageState)
    ensures r.shown == s.shown + {m} && r.scrollLocked
    ensures r.calls == s.calls + [OpenEvent(s, m, ctx)]
    ensures r.currentSlide == s.currentSlide && r.currentProjectData == s.currentProjectData
    ensures r.currentPdfBlobUrl == s.currentPdfBlobUrl && r.currentPdfOriginalPath == s.currentPdfOriginalPath
    ensures r.revoked == s.revoked && r.pdfViewerSrc == s.pdfViewerSrc && r.slide == s.slide && r.desc == s.desc
  {
    s.(shown := s.shown + {m}, scrollLocked := true, calls := s.calls + [OpenEvent(s, m, ctx)])
  }

  // ---------------------------------------------------------------------
  // closeModal
  // ---------------------------------------------------------------------

  /** `closeModal(m)` with its teardown run at once: nothing when the overlay
      is not shown; otherwise hide it, unlock scrolling, and reset what
      belongs to it. */
  function CloseStep(s: PageState, m: Modal): (r: PageState)
    ensures m !in s.shown ==> r == s
    ensures r.shown == s.shown - {m}
    ensures m in s.shown ==> !r.scrollLocked
    ensures r.calls == s.calls && r.currentSlide == s.currentSlide
    ensures m in s.shown && m == PdfModal ==>
      r.pdfViewerSrc == AboutBlank && r.currentPdfOriginalPath.None? &&
      (Truthy(s.currentPdfBlobUrl) ==>
        r.currentPdfBlobUrl.None? && r.revoked == s.revoked + [s.currentPdfBlobUrl.value]) &&
      (!Truthy(s.currentPdfBlobUrl) ==>
        r.currentPdfBlobUrl == s.currentPdfBlobUrl && r.revoked == s.revoked)
    ensures m != PdfModal ==>
      r.revoked == s.revoked && r.currentPdfBlobUrl == s.currentPdfBlobUrl &&
      r.currentPdfOriginalPath == s.currentPdfOriginalPath && r.pdfViewerSrc == s.pdfViewerSrc
    ensures m in s.shown && m == ImageModal ==>
      r.currentProjectData.None? && r.slide == s.slide.(src := BlankImage, navVisible := true)
    ensures m != ImageModal ==> r.currentProjectData == s.currentProjectData && r.slide == s.slide
    ensures m in s.shown && m == DescriptionModal ==>
      r.desc.title == "" && r.desc.text == "" && r.desc.imageSrc == BlankImage && r.desc.imageAlt == s.desc.imageAlt
    ensures m != DescriptionModal ==> r.desc == s.desc
  {
    if m !in s.shown then s
    else
      var t := s.(shown := s.shown - {m}, scrollLocked := false);
      match m
      case PdfModal =>
        if Truthy(s.currentPdfBlobUrl) then
          t.(pdfViewerSrc := AboutBlank, revoked := s.revoked + [s.currentPdfBlobUrl.value],
             currentPdfBlobUrl := None, currentPdfOriginalPath := None)
        else
          t.(pdfViewerSrc := AboutBlank, currentPdfOriginalPath := None)
      case ImageModal =>
        t.(currentProjectData := None, slide := s.slide.(src := BlankImage, navVisible := true))
      case DescriptionModal =>
        t.(desc := s.desc.(imageSrc := BlankImage, title := "", text := ""))
      case PublicationsModal =>
        t
  }

  /** Closing an overlay twice is the same as closing it once. */
  lemma CloseIdempotent(s: PageState, m: Modal)
    ensures CloseStep(CloseStep(s, m), m) == CloseStep(s, m)
  {
  }

  /** Closing the PDF overlay revokes at most one blob URL and leaves none
      assigned that it has not revoked. */
  lemma ClosePdfRevokesAtMostOnce(s: PageState)
    requires PdfModal in s.shown
    ensures var r := CloseStep(s, PdfModal);
            s.revoked <= r.revoked && |r.revoked| <= |s.revoked| + 1 &&
            !Truthy(r.currentPdfBlobUrl) &&
            (Truthy(s.currentPdfBlobUrl) ==> r.revoked[|r.revoked| - 1] == s.currentPdfBlobUrl.value)
  {
  }

  // ---------------------------------------------------------------------
  // showSlide, nextSlide, prevSlide
  // ---------------------------------------------------------------------

  /** The `image_view` context `showSlide` passes: the id stripped from the
      prefix, the slide and the total. */
  function SlideViewContext(e: ProjectEntry, k: int): (c: ImageContext)
    ensures c.projectId == Some(ProjectIdFromPrefix(e.prefix)) && c.context.None?
    ensures c.slide == Some(k) && c.totalSlides == Some(e.totalSlides)
  {
    ImageContext(Some(ProjectIdFromPrefix(e.prefix)), None, Some(k), Some(e.totalSlides))
  }

  /** The `trackImageView` call `showSlide` makes for slide `k` of entry
      `e`. */
  function SlideEvent(e: ProjectEntry, k: int): (c: TrackerCall)
    ensures c.TrackImageViewCall? && c.imageSrc == ImageUrl(e, k)
    ensures c.imageContext == SlideViewContext(e, k)
  {
    TrackImageViewCall(ImageUrl(e, k), SlideViewContext(e, k))
  }

  /** What the slideshow displays for slide `k` of entry `e`, over the
      previous display `v`: the counter keeps its old text when hidden. */
  function SlideDisplay(v: SlideView, e: ProjectEntry, k: int): (w: SlideView)
    ensures w.src == ImageUrl(e, k) && w.alt == AltText(k, e.totalSlides) && w.rotation == Rotation(e, k)
    ensures e.totalSlides == 1 ==> !w.navVisible && w.counterText == v.counterText
    ensures e.totalSlides != 1 ==> w.navVisible && w.counterText == CounterText(k, e.totalSlides)
  {
    var n := e.totalSlides;
    SlideView(ImageUrl(e, k), AltText(k, n), Rotation(e, k),
              if n == 1 then v.counterText else CounterText(k, n), n != 1)
  }

  /** `showSlide(k)`: with slideshow data, move to slide `((k-1+n) % n) + 1`,
      display it, and send `image_view` when the slideshow overlay is
      shown. */
  function ShowSlideStep(s: PageState, k: int): (r: PageState)
    requires HasSlides(s)
    ensures s.currentProjectData.None? ==> r == s
    ensures s.currentProjectData.Some? ==>
      var e := s.currentProjectData.value;
      (k - 1 + e.totalSlides >= 0 ==> 1 <= r.currentSlide <= e.totalSlides) &&
      r.currentSlide == SlideIndex(k, e.totalSlides) &&
      (1 <= k <= e.totalSlides ==> r.currentSlide == k) &&
      r.slide == SlideDisplay(s.slide, e, r.currentSlide) &&
      (ImageModal in s.shown ==>
        r.calls == s.calls + [SlideEvent(e, r.currentSlide)]) &&
      (ImageModal !in s.shown ==> r.calls == s.calls)
    ensures r.currentProjectData == s.currentProjectData && r.shown == s.shown
    ensures r.currentPdfBlobUrl == s.currentPdfBlobUrl && r.currentPdfOriginalPath == s.currentPdfOriginalPath
    ensures r.revoked == s.revoked && r.scrollLocked == s.scrollLocked && r.pdfViewerSrc == s.pdfViewerSrc
    ensures r.desc == s.desc && s.calls <= r.calls
  {
    match s.currentProjectData
    case None => s
    case Some(e) =>
      var cur := SlideIndex(k, e.totalSlides);
      var v := SlideDisplay(s.slide, e, cur);
      var t := s.(currentSlide := cur, slide := v);
      if ImageModal in s.shown then t.(calls := s.calls + [SlideEvent(e, cur)])
      else t
  }

  /** Whether the arrows act: slideshow data of more than one slide. */
  predicate CanNavigate(s: PageState)
  {
    s.currentProjectData.Some? && s.currentProjectData.value.totalSlides > 1
  }

  /** `nextSlide()`: one slide on, only with data of more than one slide. */
  function NextStep(s: PageState): (r: PageState)
    requires HasSlides(s)
    ensures !CanNavigate(s) ==> r == s
    ensures CanNavigate(s) ==> r.currentSlide == NextIndex(s.currentSlide, s.currentProjectData.value.totalSlides)
    ensures r.currentProjectData == s.currentProjectData && r.shown == s.shown && s.calls <= r.calls
    ensures r.revoked == s.revoked
  {
    if CanNavigate(s) then ShowSlideStep(s, s.currentSlide + 1) else s
  }

  /** `prevSlide()`: one slide back, only with data of more than one slide. */
  function PrevStep(s: PageState): (r: PageState)
    requires HasSlides(s)
    ensures !CanNavigate(s) ==> r == s
    ensures CanNavigate(s) ==> r.currentSlide == PrevIndex(s.currentSlide, s.currentProjectData.value.totalSlides)
    ensures r.currentProjectData == s.currentProjectData && r.shown == s.shown && s.calls <= r.calls
    ensures r.revoked == s.revoked
  {
    if CanNavigate(s) then ShowSlideStep(s, s.currentSlide - 1) else s
  }

  /** With more than one slide, the arrows show the neighbouring slide. */
  lemma NextStepMoves(s: PageState)
    requires CanNavigate(s)
    ensures NextStep(s) == ShowSlideStep(s, s.currentSlide + 1)
  {
  }

  lemma PrevStepMoves(s: PageState)
    requires CanNavigate(s)
    ensures PrevStep(s) == ShowSlideStep(s, s.currentSlide - 1)
  {
  }

  /** Next from the last slide shows the first; otherwise the one after. */
  lemma NextWraps(s: PageState)
    requires CanNavigate(s) && 1 <= s.currentSlide <= s.currentProjectData.value.totalSlides
    ensures var n := s.currentProjectData.value.totalSlides;
            NextStep(s).currentSlide == if s.currentSlide == n then 1 else s.currentSlide + 1
  {
    NextIndexWraps(s.currentSlide, s.currentProjectData.value.totalSlides);
  }

  /** Previous from the first slide shows the last; otherwise the one
      before. */
  lemma PrevWraps(s: PageState)
    requires CanNavigate(s) && 1 <= s.currentSlide <= s.currentProjectData.value.totalSlides
    ensures var n := s.currentProjectData.value.totalSlides;
            PrevStep(s).currentSlide == if s.currentSlide == 1 then n else s.currentSlide - 1
  {
    PrevIndexWraps(s.currentSlide, s.currentProjectData.value.totalSlides);
  }

  /** The arrows keep the invariant. */
  lemma NavigateKeepsValid(s: PageState)
    requires Valid(s)
    ensures Valid(NextStep(s)) && Valid(PrevStep(s))
  {
    ValidHasSlides(s);
    if CanNavigate(s) {
      NextWraps(s);
      PrevWraps(s);
    }
  }

  /** Next then previous returns to the same slide. */
  lemma NextThenPrev(s: PageState)
    requires CanNavigate(s) && 1 <= s.currentSlide <= s.currentProjectData.value.totalSlides
    ensures HasSlides(NextStep(s)) && PrevStep(NextStep(s)).currentSlide == s.currentSlide
  {
    var n := s.currentProjectData.value.totalSlides;
    var t := NextStep(s);
    assert t.currentSlide == NextIndex(s.currentSlide, n);
    NextPrevInverse(s.currentSlide, n);
    NextIndexWraps(s.currentSlide, n);
    assert PrevStep(t).currentSlide == PrevIndex(t.currentSlide, n);
  }

  // ---------------------------------------------------------------------
  // The project-image click: open the slideshow
  // ---------------------------------------------------------------------

  /** The `project_click` call of a click on a project image. */
  function ImageClickEvent(id: string): (c: TrackerCall)
    ensures Payload(c).eventType == "project_click"
    ensures Payload(c).details == ProjectClickInfo("image", id, Some("open_slideshow"))
    ensures id != "" ==> Payload(c).projectId == Some(id)
  {
    TrackEvent("project_click", ProjectClickInfo("image", id, Some("open_slideshow")))
  }

  /** The body of the image click once the id is known to name entry `e`:
      report the click, install the data, open the slideshow, show slide 1. */
  function OpenEntryStep(s: PageState, id: string, e: ProjectEntry): PageState
    requires e.totalSlides >= 1
  {
    var t := s.(calls := s.calls + [ImageClickEvent(id)], currentProjectData := Some(e));
    ShowSlideStep(OpenModalStep(t, ImageModal, OpenContext(Some(id), None)), 1)
  }

  /** The click on a project image with `data-project-id` `id`: for an empty
      id or one without catalog entry, nothing; otherwise send
      `project_click`, load the entry, open the slideshow overlay and show
      slide 1. */
  function OpenSlideshowStep(s: PageState, id: string): (r: PageState)
    requires HasSlides(s)
    ensures id == "" || id !in SlideshowData ==> r == s
    ensures id != "" && id in SlideshowData ==>
      r.currentProjectData == Some(SlideshowData[id]) && r.currentSlide == 1 &&
      r.shown == s.shown + {ImageModal} && r.scrollLocked &&
      r.slide.src == ImageUrl(SlideshowData[id], 1) &&
      |r.calls| == |s.calls| + 3 && r.calls[..|s.calls|] == s.calls &&
      r.calls[|s.calls|] == ImageClickEvent(id) &&
      r.calls[|s.calls| + 1] == TrackModalOpenCall("imageModal", TrackerContext(s.(currentProjectData := Some(SlideshowData[id])), ImageModal, OpenContext(Some(id), None))) &&
      r.calls[|s.calls| + 2] == SlideEvent(SlideshowData[id], 1)
    ensures id != "" && id in SlideshowData ==> r.slide == SlideDisplay(s.slide, SlideshowData[id], 1)
    ensures r.currentPdfBlobUrl == s.currentPdfBlobUrl && r.currentPdfOriginalPath == s.currentPdfOriginalPath
    ensures r.pdfViewerSrc == s.pdfViewerSrc && r.desc == s.desc
    ensures r.revoked == s.revoked && s.calls <= r.calls
  {
    if id == "" || id !in SlideshowData then s
    else
      CatalogTotalsPositive();
      OpenEntryStep(s, id, SlideshowData[id])
  }

  /** The `modal_open` event of the slideshow reports the prefix as detail
      and the clicked id as project. */
  lemma SlideshowOpenEvent(s: PageState, id: string)
    requires s.currentProjectData.Some? && id != ""
    requires s.currentProjectData.value.prefix != "" && |s.currentProjectData.value.prefix| <= 150
    ensures Payload(OpenEvent(s, ImageModal, OpenContext(Some(id), None))).details ==
            ModalOpenInfo("imageModal", s.currentProjectData.value.prefix, Some(id))
  {
  }

  /** The `image_view` event of a slide of an entry with well-formed paths
      (every catalog entry, by CatalogPrefixesAreDirectories) reports the id
      stripped from the prefix, and `trackImageView` would infer the same id from the image
      path alone. */
  lemma SlideViewEvent(e: ProjectEntry, k: int)
    requires EntryPathsWellFormed(e)
    ensures var ev := Payload(SlideEvent(e, k));
            ev.details.ImageViewInfo? && ev.details.projectId == Some(ProjectIdFromPrefix(e.prefix)) &&
            ev.details.projectId ==
              ImageProjectId(ImageUrl(e, k), ImageContext(None, None, Some(k), Some(e.totalSlides)))
  {
    PrefixIdIsName(e.prefix);
    assert ProjectIdFromPrefix(e.prefix) != "";
    DirectoryPrefixIds(e.prefix, k, e.extension, Some(k), Some(e.totalSlides));
  }

  /** The two calls the slideshow sends on opening agree on the project:
      `modal_open` reports the clicked id and the prefix; `image_view`
      reports the directory name of the prefix, which is also what
      `trackImageView` infers from the image path alone. */
  lemma OpenSlideshowEvents(s: PageState, id: string)
    requires HasSlides(s) && id != "" && id in SlideshowData
    ensures var r := OpenSlideshowStep(s, id);
            var e := SlideshowData[id];
            Payload(r.calls[|s.calls| + 1]).details == ModalOpenInfo("imageModal", e.prefix, Some(id)) &&
            Payload(r.calls[|s.calls| + 2]).details.ImageViewInfo? &&
            Payload(r.calls[|s.calls| + 2]).details.projectId ==
              ImageProjectId(ImageUrl(e, 1), ImageContext(None, None, Some(1), Some(e.totalSlides)))
  {
    var e := SlideshowData[id];
    CatalogTotalsPositive();
    CatalogPrefixesAreDirectories();
    var t := s.(calls := s.calls + [ImageClickEvent(id)], currentProjectData := Some(e));
    var ctx := OpenContext(Some(id), None);
    var u := OpenModalStep(t, ImageModal, ctx);
    SlideshowOpenEvent(t, id);
    assert u.calls[|s.calls| + 1] == OpenEvent(t, ImageModal, ctx);
    assert OpenSlideshowStep(s, id) == ShowSlideStep(u, 1);
    SlideViewEvent(e, 1);
  }

  // ---------------------------------------------------------------------
  // PDF loading
  // ---------------------------------------------------------------------

  /** The synchronous part of a PDF request: remember the path, blank the
      viewer and revoke the current blob URL, which stays assigned. */
  function BeginPdfLoad(s: PageState, path: string): (r: PageState)
    ensures r.currentPdfOriginalPath == Some(path) && r.pdfViewerSrc == AboutBlank
    ensures r.currentPdfBlobUrl == s.currentPdfBlobUrl
    ensures r.revoked == s.revoked + (if Truthy(s.currentPdfBlobUrl) then [s.currentPdfBlobUrl.value] else [])
    ensures r.shown == s.shown && r.calls == s.calls && r.currentProjectData == s.currentProjectData
    ensures r.currentSlide == s.currentSlide && r.scrollLocked == s.scrollLocked && r.slide == s.slide && r.desc == s.desc
  {
    var t := s.(currentPdfOriginalPath := Some(path), pdfViewerSrc := AboutBlank);
    if Truthy(s.currentPdfBlobUrl) then t.(revoked := s.revoked + [s.currentPdfBlobUrl.value]) else t
  }

  /** The fetch callbacks before they open an overlay: a loaded blob becomes
      the current blob URL and is shown without toolbar; on failure the
      viewer gets the path itself. Either way the result is taken, whatever
      request was made since. */
  function SettleLoad(s: PageState, path: string, outcome: LoadOutcome): (r: PageState)
    ensures outcome.Loaded? ==>
      r.currentPdfBlobUrl == Some(outcome.blobUrl) && r.pdfViewerSrc == outcome.blobUrl + ViewerFlags
    ensures outcome.Failed? ==> r.currentPdfBlobUrl == s.currentPdfBlobUrl && r.pdfViewerSrc == path
    ensures r.currentPdfOriginalPath == s.currentPdfOriginalPath && r.revoked == s.revoked
    ensures r.shown == s.shown && r.calls == s.calls && r.currentProjectData == s.currentProjectData
    ensures r.currentSlide == s.currentSlide && r.scrollLocked == s.scrollLocked && r.slide == s.slide && r.desc == s.desc
  {
    match outcome
    case Loaded(u) => s.(currentPdfBlobUrl := Some(u), pdfViewerSrc := u + ViewerFlags)
    case Failed => s.(pdfViewerSrc := path)
  }

  /** The `publication_click` call of a publication link. */
  function PublicationClickEvent(pub: Publication): (c: TrackerCall)
    ensures Payload(c).eventType == "publication_click"
    ensures Payload(c).details == PublicationClickInfo(pub.title, pub.filePath)
    ensures Payload(c).projectId.None?
  {
    TrackEvent("publication_click", PublicationClickInfo(pub.title, pub.filePath))
  }

  /** The click on a publication link: send `publication_click` and begin
      loading its file. */
  function PublicationClickStep(s: PageState, pub: Publication): (r: PageState)
    ensures r.calls == s.calls + [PublicationClickEvent(pub)]
    ensures r.currentPdfOriginalPath == Some(pub.filePath) && r.pdfViewerSrc == AboutBlank
    ensures r.currentPdfBlobUrl == s.currentPdfBlobUrl
    ensures r.revoked == s.revoked + (if Truthy(s.currentPdfBlobUrl) then [s.currentPdfBlobUrl.value] else [])
    ensures r.shown == s.shown && r.currentProjectData == s.currentProjectData && r.currentSlide == s.currentSlide
    ensures r.scrollLocked == s.scrollLocked && r.slide == s.slide && r.desc == s.desc
  {
    BeginPdfLoad(s.(calls := s.calls + [PublicationClickEvent(pub)]), pub.filePath)
  }

  /** The id the publication handler passes for a title: spaces become
      underscores. */
  function PublicationId(title: string): (r: string)
    ensures |r| == |title| && ' ' !in r
    ensures forall i :: 0 <= i < |title| && title[i] != ' ' ==> r[i] == title[i]
  {
    ReplaceChar(title, ' ', '_')
  }

  /** A publication's fetch settling: take the outcome, close the list and
      open the PDF overlay with the path and the title as context. */
  function PublicationSettledStep(s: PageState, pub: Publication, outcome: LoadOutcome): (r: PageState)
    ensures r.shown == s.shown - {PublicationsModal} + {PdfModal} && r.scrollLocked
    ensures outcome.Loaded? ==>
      r.currentPdfBlobUrl == Some(outcome.blobUrl) && r.pdfViewerSrc == outcome.blobUrl + ViewerFlags
    ensures outcome.Failed? ==> r.currentPdfBlobUrl == s.currentPdfBlobUrl && r.pdfViewerSrc == pub.filePath
    ensures r.currentPdfOriginalPath == s.currentPdfOriginalPath && r.revoked == s.revoked
    ensures r.currentProjectData == s.currentProjectData && r.currentSlide == s.currentSlide
    ensures r.slide == s.slide && r.desc == s.desc
    ensures |r.calls| == |s.calls| + 1 && r.calls[..|s.calls|] == s.calls
    ensures r.calls[|s.calls|] == OpenEvent(SettleLoad(s, pub.filePath, outcome), PdfModal,
                                            OpenContext(Some(PublicationId(pub.title)), Some(pub.filePath)))
  {
    var t := SettleLoad(s, pub.filePath, outcome);
    var u := CloseStep(t, PublicationsModal);
    OpenModalStep(u, PdfModal, OpenContext(Some(PublicationId(pub.title)), Some(pub.filePath)))
  }

  /** When the settled load is the latest one requested, the `modal_open`
      event names its path as detail and the title (spaces as underscores)
      as project. */
  lemma PublicationOpenReportsPath(s: PageState, pub: Publication, outcome: LoadOutcome)
    requires s.currentPdfOriginalPath == Some(pub.filePath) && pub.filePath != ""
    requires |pub.filePath| <= 150 && pub.title != ""
    ensures var r := PublicationSettledStep(s, pub, outcome);
            Payload(r.calls[|s.calls|]).details == ModalOpenInfo("pdfModal", pub.filePath, Some(PublicationId(pub.title)))
  {
  }

  /** `openPublicationsModal()`: open the list, reporting it as
      `publications_list`. */
  function OpenPublicationsStep(s: PageState): (r: PageState)
    ensures r.shown == s.shown + {PublicationsModal} && r.scrollLocked
    ensures r.currentProjectData == s.currentProjectData && r.currentSlide == s.currentSlide
    ensures r.currentPdfBlobUrl == s.currentPdfBlobUrl && r.currentPdfOriginalPath == s.currentPdfOriginalPath
    ensures r.pdfViewerSrc == s.pdfViewerSrc && r.slide == s.slide && r.desc == s.desc
    ensures r.revoked == s.revoked
    ensures |r.calls| == |s.calls| + 1 && r.calls[..|s.calls|] == s.calls
    ensures Payload(r.calls[|s.calls|]).details ==
            ModalOpenInfo("publicationsModal", "Publication List", Some("publications_list"))
    ensures r.calls[|s.calls|] == OpenEvent(s, PublicationsModal, OpenContext(Some("publications_list"), None))
    ensures Payload(r.calls[|s.calls|]).eventType == "modal_open"
    ensures Payload(r.calls[|s.calls|]).projectId == Some("publications_list")
  {
    OpenModalStep(s, PublicationsModal, OpenContext(Some("publications_list"), None))
  }

  // ---------------------------------------------------------------------
  // The project-title click
  // ---------------------------------------------------------------------

  /** The `project_click` call of a click on a project title. */
  function TitleClickEvent(projectId: string): (c: TrackerCall)
    ensures Payload(c).eventType == "project_click"
    ensures Payload(c).details == ProjectClickInfo("title", projectId, None)
    ensures projectId != "" ==> Payload(c).projectId == Some(projectId)
  {
    TrackEvent("project_click", ProjectClickInfo("title", projectId, None))
  }

  /** What the description overlay shows for a card: its alt text falls back
      to the title when the card image has none. */
  function DescriptionDisplay(d: DescriptionSource): (v: DescriptionView)
    ensures v.title == d.titleText && v.imageSrc == d.imageSrc && v.text == d.html
    ensures v.imageAlt == if d.imageAlt != "" then d.imageAlt else d.titleText
  {
    DescriptionView(d.titleText, d.imageSrc, if d.imageAlt != "" then d.imageAlt else d.titleText, d.html)
  }

  /** The click on a project title: send `project_click`; with a PDF path,
      begin loading it; otherwise, when the card has a description, fill the
      description overlay and open it. */
  function ProjectTitleClickStep(s: PageState, projectId: string, pdfPath: Option<string>,
                                 desc: Option<DescriptionSource>): (r: PageState)
    ensures Truthy(pdfPath) ==>
      r.currentPdfOriginalPath == pdfPath && r.pdfViewerSrc == AboutBlank && r.shown == s.shown &&
      r.currentPdfBlobUrl == s.currentPdfBlobUrl &&
      r.revoked == s.revoked + (if Truthy(s.currentPdfBlobUrl) then [s.currentPdfBlobUrl.value] else []) &&
      r.calls == s.calls + [TitleClickEvent(projectId)] && r.scrollLocked == s.scrollLocked && r.slide == s.slide && r.desc == s.desc
    ensures !Truthy(pdfPath) && desc.Some? ==>
      r.shown == s.shown + {DescriptionModal} && r.scrollLocked && r.desc == DescriptionDisplay(desc.value) &&
      r.calls == s.calls + [TitleClickEvent(projectId),
                            TrackModalOpenCall("descriptionModal",
                              ModalContext(Some(desc.value.titleText), None,
                                           if projectId != "" then Some(projectId) else None, None))] &&
      r.currentPdfBlobUrl == s.currentPdfBlobUrl && r.currentPdfOriginalPath == s.currentPdfOriginalPath &&
      r.pdfViewerSrc == s.pdfViewerSrc && r.revoked == s.revoked && r.slide == s.slide
    ensures !Truthy(pdfPath) && desc.None? ==> r == s.(calls := s.calls + [TitleClickEvent(projectId)])
    ensures |r.calls| >= |s.calls| + 1 && r.calls[..|s.calls| + 1] == s.calls + [TitleClickEvent(projectId)]
    ensures r.currentProjectData == s.currentProjectData && r.currentSlide == s.currentSlide
    ensures DescriptionModal !in r.shown ==> r.shown == s.shown
  {
    var t := s.(calls := s.calls + [TitleClickEvent(projectId)]);
    if Truthy(pdfPath) then
      BeginPdfLoad(t, pdfPath.value)
    else if desc.Some? then
      OpenModalStep(t.(desc := DescriptionDisplay(desc.value)), DescriptionModal, OpenContext(Some(projectId), None))
    else
      t
  }

  /** A title's PDF fetch settling: take the outcome and open the PDF overlay
      with the project id as context. The list overlay is left alone. */
  function TitlePdfSettledStep(s: PageState, projectId: string, path: string, outcome: LoadOutcome): (r: PageState)
    ensures r.shown == s.shown + {PdfModal} && r.scrollLocked
    ensures outcome.Loaded? ==>
      r.currentPdfBlobUrl == Some(outcome.blobUrl) && r.pdfViewerSrc == outcome.blobUrl + ViewerFlags
    ensures outcome.Failed? ==> r.currentPdfBlobUrl == s.currentPdfBlobUrl && r.pdfViewerSrc == path
    ensures r.currentPdfOriginalPath == s.currentPdfOriginalPath
    ensures r.currentProjectData == s.currentProjectData && r.currentSlide == s.currentSlide
    ensures r.revoked == s.revoked && r.slide == s.slide && r.desc == s.desc
    ensures r.calls == s.calls + [OpenEvent(SettleLoad(s, path, outcome), PdfModal, OpenContext(Some(projectId), None))]
  {
    OpenModalStep(SettleLoad(s, path, outcome), PdfModal, OpenContext(Some(projectId), None))
  }

  // ---------------------------------------------------------------------
  // The keyboard handler
  // ---------------------------------------------------------------------

  /** The order in which Escape closes the overlays. */
  const CloseOrder: seq<Modal> := [PdfModal, ImageModal, PublicationsModal, DescriptionModal]

  /** Closing the overlays of `ms` in order. */
  function CloseAll(s: PageState, ms: seq<Modal>): (r: PageState)
    ensures r.shown == s.shown - set m | m in ms
    ensures r.calls == s.calls && r.currentSlide == s.currentSlide && s.revoked <= r.revoked
    decreases |ms|
  {
    if |ms| == 0 then s else CloseStep(CloseAll(s, ms[..|ms| - 1]), ms[|ms| - 1])
  }

  /** Whether closing the overlays of `ms` from state `s` closes `m`. */
  predicate ClosesIn(s: PageState, ms: seq<Modal>, m: Modal)
  {
    m in ms && m in s.shown
  }

  /** Closing a list of overlays tears each shown one of them down once, as
      `closeModal` does, and keeps everything else. */
  lemma {:induction false} CloseAllTearsDown(s: PageState, ms: seq<Modal>)
    ensures var r := CloseAll(s, ms);
            ((exists m :: ClosesIn(s, ms, m)) ==> !r.scrollLocked) &&
            ((forall m :: !ClosesIn(s, ms, m)) ==> r == s) &&
            (ClosesIn(s, ms, PdfModal) ==>
              r.pdfViewerSrc == AboutBlank && r.currentPdfOriginalPath.None? && !Truthy(r.currentPdfBlobUrl) &&
              r.revoked == s.revoked + (if Truthy(s.currentPdfBlobUrl) then [s.currentPdfBlobUrl.value] else [])) &&
            (!ClosesIn(s, ms, PdfModal) ==>
              r.pdfViewerSrc == s.pdfViewerSrc && r.currentPdfOriginalPath == s.currentPdfOriginalPath &&
              r.currentPdfBlobUrl == s.currentPdfBlobUrl && r.revoked == s.revoked) &&
            (ClosesIn(s, ms, ImageModal) ==>
              r.currentProjectData.None? && r.slide == s.slide.(src := BlankImage, navVisible := true)) &&
            (!ClosesIn(s, ms, ImageModal) ==> r.currentProjectData == s.currentProjectData && r.slide == s.slide) &&
            (ClosesIn(s, ms, DescriptionModal) ==>
              r.desc == s.desc.(imageSrc := BlankImage, title := "", text := "")) &&
            (!ClosesIn(s, ms, DescriptionModal) ==> r.desc == s.desc)
    decreases |ms|
  {
    if |ms| > 0 {
      var ms', m := ms[..|ms| - 1], ms[|ms| - 1];
      assert ms == ms' + [m];
      CloseAllTearsDown(s, ms');
      forall x ensures ClosesIn(s, ms, x) <==> ClosesIn(s, ms', x) || (x == m && x in s.shown) {
      }
    }
  }

  /** Closing one more overlay after a list. */
  lemma CloseAllSnoc(s: PageState, ms: seq<Modal>, m: Modal)
    ensures CloseAll(s, ms + [m]) == CloseStep(CloseAll(s, ms), m)
  {
    assert (ms + [m])[..|ms|] == ms;
  }

  /** Escape's list names every overlay. */
  lemma CloseOrderCoversAll()
    ensures forall m: Modal :: m in CloseOrder
  {
    forall m: Modal ensures m in CloseOrder {
      match m
      case PdfModal => assert CloseOrder[0] == m;
      case ImageModal => assert CloseOrder[1] == m;
      case PublicationsModal => assert CloseOrder[2] == m;
      case DescriptionModal => assert CloseOrder[3] == m;
    }
  }

  /** `keydown`: Escape closes every shown overlay; while the slideshow is
      shown, the left and right arrows go back and forward. */
  function KeyStep(s: PageState, key: string): (r: PageState)
    requires HasSlides(s)
    ensures key == "Escape" ==> r.shown == {} && r == CloseAll(s, CloseOrder)
    ensures key != "Escape" && key != "ArrowLeft" && key != "ArrowRight" ==> r == s
    ensures key == "ArrowLeft" ==> r == (if ImageModal in s.shown then PrevStep(s) else s)
    ensures key == "ArrowRight" ==> r == (if ImageModal in s.shown then NextStep(s) else s)
    ensures s.calls <= r.calls && s.revoked <= r.revoked
  {
    var t := if key == "Escape" then CloseAll(s, CloseOrder) else s;
    CloseOrderCoversAll();
    if ImageModal in t.shown then
      if key == "ArrowLeft" then PrevStep(t)
      else if key == "ArrowRight" then NextStep(t)
      else t
    else t
  }

  /** Escape closes every overlay and releases what each shown one holds:
      the PDF blob URL and path, the slideshow data, the description. */
  lemma EscapeTearsDown(s: PageState)
    requires HasSlides(s)
    ensures var r := KeyStep(s, "Escape");
            r.shown == {} && (s.shown != {} ==> !r.scrollLocked) &&
            (PdfModal in s.shown ==>
              !Truthy(r.currentPdfBlobUrl) && r.currentPdfOriginalPath.None? && r.pdfViewerSrc == AboutBlank &&
              r.revoked == s.revoked + (if Truthy(s.currentPdfBlobUrl) then [s.currentPdfBlobUrl.value] else [])) &&
            (ImageModal in s.shown ==> r.currentProjectData.None?) &&
            (DescriptionModal in s.shown ==> r.desc.title == "" && r.desc.text == "" && r.desc.imageSrc == BlankImage)
  {
    CloseOrderCoversAll();
    CloseAllTearsDown(s, CloseOrder);
    if s.shown != {} {
      var m :| m in s.shown;
      assert ClosesIn(s, CloseOrder, m);
    }
  }

  // ---------------------------------------------------------------------
  // Sessions
  // ---------------------------------------------------------------------

  /** One thing the user does, or one fetch that settles. */
  datatype Action =
    | ClickProjectImage(id: string)
    | ClickProjectTitle(projectId: string, pdfPath: Option<string>, desc: Option<DescriptionSource>)
    | TitlePdfSettled(projectId: string, path: string, outcome: LoadOutcome)
    | OpenPublications
    | ClickPublication(pub: Publication)
    | PublicationSettled(pub: Publication, outcome: LoadOutcome)
    | Close(m: Modal)
    | Next
    | Prev
    | Key(key: string)

  /** A step that keeps the slideshow data, the slide number and whether
      the slideshow is shown keeps the invariant. */
  lemma FrameKeepsValid(s: PageState, r: PageState)
    requires Valid(s)
    requires r.currentSlide == s.currentSlide && r.currentProjectData == s.currentProjectData
    requires ImageModal in r.shown <==> ImageModal in s.shown
    ensures Valid(r)
  {
  }

  /** Opening a slideshow keeps the invariant. */
  lemma OpenSlideshowKeepsValid(s: PageState, id: string)
    requires Valid(s)
    ensures HasSlides(s) && Valid(OpenSlideshowStep(s, id))
  {
    ValidHasSlides(s);
    CatalogTotalsPositive();
    if id != "" && id in SlideshowData {
      assert SlideshowData[id] in SlideshowData.Values;
    }
  }

  /** Closing an overlay keeps the invariant. */
  lemma CloseKeepsValid(s: PageState, m: Modal)
    requires Valid(s)
    ensures Valid(CloseStep(s, m))
  {
  }

  /** A key press keeps the invariant. */
  lemma KeyKeepsValid(s: PageState, key: string)
    requires Valid(s)
    ensures HasSlides(s) && Valid(KeyStep(s, key))
  {
    ValidHasSlides(s);
    NavigateKeepsValid(s);
    CloseAllKeepsValid(s, CloseOrder);
  }

  /** Closing several overlays keeps the invariant. */
  lemma {:induction false} CloseAllKeepsValid(s: PageState, ms: seq<Modal>)
    requires Valid(s)
    ensures Valid(CloseAll(s, ms))
    decreases |ms|
  {
    if |ms| > 0 {
      CloseAllKeepsValid(s, ms[..|ms| - 1]);
      CloseKeepsValid(CloseAll(s, ms[..|ms| - 1]), ms[|ms| - 1]);
    }
  }

  /** The handler for one action. */
  function Apply(s: PageState, a: Action): (r: PageState)
    requires Valid(s)
    ensures Valid(r)
    ensures s.calls <= r.calls && s.revoked <= r.revoked
  {
    ValidHasSlides(s);
    match a
    case ClickProjectImage(id) =>
      OpenSlideshowKeepsValid(s, id);
      OpenSlideshowStep(s, id)
    case ClickProjectTitle(p, path, d) =>
      var r := ProjectTitleClickStep(s, p, path, d);
      FrameKeepsValid(s, r);
      r
    case TitlePdfSettled(p, path, o) =>
      var r := TitlePdfSettledStep(s, p, path, o);
      FrameKeepsValid(s, r);
      r
    case OpenPublications =>
      var r := OpenPublicationsStep(s);
      FrameKeepsValid(s, r);
      r
    case ClickPublication(pub) =>
      var r := PublicationClickStep(s, pub);
      FrameKeepsValid(s, r);
      r
    case PublicationSettled(pub, o) =>
      var r := PublicationSettledStep(s, pub, o);
      FrameKeepsValid(s, r);
      r
    case Close(m) =>
      CloseKeepsValid(s, m);
      CloseStep(s, m)
    case Next =>
      NavigateKeepsValid(s);
      NextStep(s)
    case Prev =>
      NavigateKeepsValid(s);
      PrevStep(s)
    case Key(k) =>
      KeyKeepsValid(s, k);
      KeyStep(s, k)
  }

  /** The state after a sequence of actions. */
  function Run(s: PageState, acts: seq<Action>): (r: PageState)
    requires Valid(s)
    ensures Valid(r)
    ensures s.calls <= r.calls && s.revoked <= r.revoked
    decreases |acts|
  {
    if |acts| == 0 then s else Apply(Run(s, acts[..|acts| - 1]), acts[|acts| - 1])
  }

  // ---------------------------------------------------------------------
  // Scenarios
  // ---------------------------------------------------------------------

  /** In the Rubik's cube slideshow, previous from the first slide shows the
      last, 16, unrotated. */
  lemma RubiksPrevWraps(s: PageState)
    requires s.currentProjectData == Some(SlideshowData["rubiks"]) && s.currentSlide == 1
    ensures PrevStep(s).currentSlide == 16 && PrevStep(s).slide.rotation == 0
  {
    var e := SlideshowData["rubiks"];
    assert e.totalSlides == 16 && e.rotations == map[1 := -90, 3 := -90, 5 := -90];
    PrevIndexWraps(1, 16);
  }

  /** No superseding: a load that settles after a newer request still
      becomes the current blob and opens the PDF overlay. */
  lemma StaleLoadStillWins(s: PageState, first: Publication, second: Publication, u: string)
    requires first.filePath != second.filePath
    ensures var r := PublicationSettledStep(PublicationClickStep(PublicationClickStep(s, first), second),
                                            first, Loaded(u));
            r.currentPdfBlobUrl == Some(u) && r.pdfViewerSrc == u + ViewerFlags &&
            r.currentPdfOriginalPath == Some(second.filePath) && PdfModal in r.shown
  {
  }

  /** The blob URL revoked when a new load begins stays assigned; when that
      load fails and the PDF overlay is then closed, the same URL is revoked
      a second time. */
  lemma StaleBlobRevokedTwice(s: PageState, pub: Publication, h: string)
    requires s.currentPdfBlobUrl == Some(h) && h != ""
    ensures var r := CloseStep(PublicationSettledStep(PublicationClickStep(s, pub), pub, Failed), PdfModal);
            r.revoked == s.revoked + [h, h] && r.currentPdfBlobUrl.None?
  {
  }

  /** Opening one overlay does not close another: a description opened over
      the slideshow leaves the slideshow shown. */
  lemma OpenKeepsOthers(s: PageState, projectId: string, d: DescriptionSource)
    requires ImageModal in s.shown
    ensures ProjectTitleClickStep(s, projectId, None, Some(d)).shown == s.shown + {DescriptionModal}
  {
  }
}
