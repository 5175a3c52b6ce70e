/** The slideshow and modal controller of script.js as an object: its fields
    are the script's controller variables and the parts of the page the
    handlers write, and each method performs one handler in place. Every
    method is proved to end in the state the matching step function of
    ModalState computes, so the properties proved there hold of it. */
module ModalController {
  import opened JsValues
  import opened Tracker
  import opened Catalog
  import opened ModalState

  class Controller {
    var currentSlide: int
    var currentProjectData: Option<ProjectEntry>
    var currentPdfBlobUrl: Option<string>
    var currentPdfOriginalPath: Option<string>
    var shown: set<Modal>
    var scrollLocked: bool
    var slide: SlideView
    var pdfViewerSrc: string
    var desc: DescriptionView
    var revoked: seq<string>
    var calls: seq<TrackerCall>

    /** The fields as a page state. */
    ghost function State(): PageState
      reads this
    {
      PageState(currentSlide, currentProjectData, currentPdfBlobUrl, currentPdfOriginalPath, shown,
                scrollLocked, slide, pdfViewerSrc, desc, revoked, calls)
    }

    /** The controller as the script sets it up: slide 1, no data, nothing
        open, and the page view sent. */
    constructor()
      ensures State() == Initial() && Valid(State())
    {
      currentSlide := 1;
      currentProjectData := None;
      currentPdfBlobUrl := None;
      currentPdfOriginalPath := None;
      shown := {};
      scrollLocked := false;
      slide := SlideView("", "", 0, "", true);
      pdfViewerSrc := "";
      desc := DescriptionView("", "", "", "");
      revoked := [];
      calls := [TrackEvent("pageview", NoDetails)];
    }

    /** `openModal(m, ctx)`: build the tracker context, report the opening,
        show the overlay and lock scrolling. */
    method OpenModal(m: Modal, ctx: OpenContext)
      modifies this
      ensures State() == OpenModalStep(old(State()), m, ctx)
    {
      var projectId: Option<string> := None;
      var detail: Option<string> := None;
      if Truthy(ctx.projectId) {
        projectId := ctx.projectId;
      } else if Truthy(ctx.pdfPath) {
        detail := ctx.pdfPath;
      }
      if m == ImageModal && currentProjectData.Some? {
        detail := Some(currentProjectData.value.prefix);
        projectId := Or(projectId, Some(ProjectIdFromPrefix(currentProjectData.value.prefix)));
      } else if m == PdfModal {
        detail := Or(currentPdfOriginalPath, Some(pdfViewerSrc));
        if !Truthy(projectId) && Truthy(currentPdfOriginalPath) {
          projectId := Some(InferIdFromPath(currentPdfOriginalPath.value));
        }
      } else if m == DescriptionModal {
        detail := Some(desc.title);
      } else if m == PublicationsModal {
        detail := Some("Publication List");
      }
      calls := calls + [TrackModalOpenCall(ModalId(m), ModalContext(detail, None, projectId, None))];
      shown := shown + {m};
      scrollLocked := true;
    }

    /** `closeModal(m)`, with the teardown done at once. */
    method CloseModal(m: Modal)
      modifies this
      ensures State() == CloseStep(old(State()), m)
    {
      if m !in shown {
        return;
      }
      shown := shown - {m};
      scrollLocked := false;
      match m
      case PdfModal =>
        pdfViewerSrc := AboutBlank;
        if Truthy(currentPdfBlobUrl) {
          revoked := revoked + [currentPdfBlobUrl.value];
          currentPdfBlobUrl := None;
        }
        currentPdfOriginalPath := None;
      case ImageModal =>
        currentProjectData := None;
        slide := slide.(src := BlankImage, navVisible := true);
      case DescriptionModal =>
        desc := desc.(imageSrc := BlankImage, title := "", text := "");
      case PublicationsModal =>
    }

    /** `showSlide(k)`. */
    method ShowSlide(k: int)
      requires HasSlides(State())
      modifies this
      ensures State() == ShowSlideStep(old(State()), k)
    {
      if currentProjectData.None? {
        return;
      }
      var e := currentProjectData.value;
      var n := e.totalSlides;
      currentSlide := SlideIndex(k, n);
      var url := ImageUrl(e, currentSlide);
      slide := slide.(src := url, alt := AltText(currentSlide, n));
      if n == 1 {
        slide := slide.(navVisible := false);
      } else {
        slide := slide.(counterText := CounterText(currentSlide, n), navVisible := true);
      }
      slide := slide.(rotation := Rotation(e, currentSlide));
      if ImageModal in shown {
        calls := calls + [TrackImageViewCall(url, SlideViewContext(e, currentSlide))];
      }
    }

    /** `nextSlide()`. */
    method NextSlide()
      requires HasSlides(State())
      modifies this
      ensures State() == NextStep(old(State()))
    {
      ghost var s := State();
      if currentProjectData.Some? && currentProjectData.value.totalSlides > 1 {
        NextStepMoves(s);
        ShowSlide(currentSlide + 1);
      }
    }

    /** `prevSlide()`. */
    method PrevSlide()
      requires HasSlides(State())
      modifies this
      ensures State() == PrevStep(old(State()))
    {
      ghost var s := State();
      if currentProjectData.Some? && currentProjectData.value.totalSlides > 1 {
        PrevStepMoves(s);
        ShowSlide(currentSlide - 1);
      }
    }

    /** The click handler of a project image with `data-project-id` `id`. */
    method OnProjectImageClick(id: string)
      requires Valid(State())
      modifies this
      ensures State() == OpenSlideshowStep(old(State()), id) && Valid(State())
    {
      OpenSlideshowKeepsValid(State(), id);
      if id == "" || id !in SlideshowData {
        return;
      }
      CatalogTotalsPositive();
      OpenSlideshow(id, SlideshowData[id]);
    }

    /** The image click once its id names catalog entry `e`: report the
        click, install the data, open the slideshow and show slide 1. */
    method OpenSlideshow(id: string, e: ProjectEntry)
      requires e.totalSlides >= 1
      modifies this
      ensures State() == OpenEntryStep(old(State()), id, e)
    {
      calls := calls + [ImageClickEvent(id)];
      currentProjectData := Some(e);
      OpenModal(ImageModal, OpenContext(Some(id), None));
      ShowSlide(1);
    }

    /** The synchronous part of a PDF request from a project title. */
    method BeginPdfLoad(path: string)
      modifies this
      ensures State() == ModalState.BeginPdfLoad(old(State()), path)
    {
      currentPdfOriginalPath := Some(path);
      pdfViewerSrc := AboutBlank;
      if Truthy(currentPdfBlobUrl) {
        revoked := revoked + [currentPdfBlobUrl.value];
      }
    }

    /** What both fetch callbacks do with the outcome before opening the PDF
        overlay. */
    method SettleLoad(path: string, outcome: LoadOutcome)
      modifies this
      ensures State() == ModalState.SettleLoad(old(State()), path, outcome)
    {
      match outcome
      case Loaded(u) =>
        currentPdfBlobUrl := Some(u);
        pdfViewerSrc := u + ViewerFlags;
      case Failed =>
        pdfViewerSrc := path;
    }

    /** The click handler of a project title. */
    method OnProjectTitleClick(projectId: string, pdfPath: Option<string>, card: Option<DescriptionSource>)
      requires Valid(State())
      modifies this
      ensures State() == ProjectTitleClickStep(old(State()), projectId, pdfPath, card) && Valid(State())
    {
      calls := calls + [TitleClickEvent(projectId)];
      if Truthy(pdfPath) {
        BeginPdfLoad(pdfPath.value);
      } else if card.Some? {
        desc := DescriptionDisplay(card.value);
        OpenModal(DescriptionModal, OpenContext(Some(projectId), None));
      }
      FrameKeepsValid(old(State()), State());
    }

    /** A title's PDF fetch settling with `outcome`. */
    method OnTitlePdfSettled(projectId: string, path: string, outcome: LoadOutcome)
      requires Valid(State())
      modifies this
      ensures State() == TitlePdfSettledStep(old(State()), projectId, path, outcome) && Valid(State())
    {
      SettleLoad(path, outcome);
      OpenModal(PdfModal, OpenContext(Some(projectId), None));
      FrameKeepsValid(old(State()), State());
    }

    /** `openPublicationsModal()`. */
    method OpenPublicationsModal()
      requires Valid(State())
      modifies this
      ensures State() == OpenPublicationsStep(old(State())) && Valid(State())
    {
      OpenModal(PublicationsModal, OpenContext(Some("publications_list"), None));
      FrameKeepsValid(old(State()), State());
    }

    /** The click handler of a publication link. */
    method OnPublicationClick(pub: Publication)
      requires Valid(State())
      modifies this
      ensures State() == PublicationClickStep(old(State()), pub) && Valid(State())
    {
      currentPdfOriginalPath := Some(pub.filePath);
      calls := calls + [PublicationClickEvent(pub)];
      pdfViewerSrc := AboutBlank;
      if Truthy(currentPdfBlobUrl) {
        revoked := revoked + [currentPdfBlobUrl.value];
      }
      FrameKeepsValid(old(State()), State());
    }

    /** A publication's fetch settling with `outcome`. */
    method OnPublicationSettled(pub: Publication, outcome: LoadOutcome)
      requires Valid(State())
      modifies this
      ensures State() == PublicationSettledStep(old(State()), pub, outcome) && Valid(State())
    {
      SettleLoad(pub.filePath, outcome);
      CloseModal(PublicationsModal);
      OpenModal(PdfModal, OpenContext(Some(PublicationId(pub.title)), Some(pub.filePath)));
      FrameKeepsValid(old(State()), State());
    }

    /** A click on a close button or on an overlay's backdrop. */
    method OnClose(m: Modal)
      requires Valid(State())
      modifies this
      ensures State() == CloseStep(old(State()), m) && Valid(State())
    {
      CloseKeepsValid(State(), m);
      CloseModal(m);
    }

    /** Escape's `forEach` over the overlays: close each one that is shown. */
    method CloseShown(order: seq<Modal>)
      modifies this
      ensures State() == CloseAll(old(State()), order)
    {
      var i := 0;
      while i < |order|
        invariant 0 <= i <= |order|
        invariant State() == CloseAll(old(State()), order[..i])
      {
        CloseAllSnoc(old(State()), order[..i], order[i]);
        assert order[..i + 1] == order[..i] + [order[i]];
        if order[i] in shown {
          CloseModal(order[i]);
        }
        i := i + 1;
      }
      assert order[..|order|] == order;
    }

    /** The `keydown` handler. */
    method OnKeyDown(key: string)
      requires Valid(State())
      modifies this
      ensures State() == KeyStep(old(State()), key) && Valid(State())
    {
      KeyKeepsValid(State(), key);
      ValidHasSlides(State());
      if key == "Escape" {
        CloseAllKeepsValid(State(), CloseOrder);
        CloseShown(CloseOrder);
        ValidHasSlides(State());
      }
      if ImageModal in shown {
        if key == "ArrowLeft" {
          PrevSlide();
        } else if key == "ArrowRight" {
          NextSlide();
        }
      }
    }
  }
}
