/** The analytics tracker at the top of script.js: the payload `sendEvent`
    builds, the context derivation of `trackModalOpen` and `trackImageView`,
    and the delegated click listener's classification of a click. Sending
    the beacon itself is I/O and is not part of this model. */
module Tracker {
  import opened JsValues
  import opened Text

  // ---------------------------------------------------------------------
  // Events
  // ---------------------------------------------------------------------

  /** What the generic click listener records about a click it reports. */
  datatype ClickDetails = ClickDetails(
    projectId: Option<string>,
    trackId: Option<string>,
    href: Option<string>,
    linkType: Option<string>,
    linkTypeDetail: Option<string>,
    targetBlank: bool)

  /** The details object handed to `sendEvent`, one shape per call site. */
  datatype Details =
    | NoDetails
    | ModalOpenInfo(modalId: string, detail: string, projectId: Option<string>)
    | ImageViewInfo(imageSrc: string, slide: Option<int>, totalSlides: Option<int>, projectId: Option<string>)
    | ProjectClickInfo(element: string, project: string, action: Option<string>)
    | PublicationClickInfo(title: string, path: string)
    | ClickInfo(click: ClickDetails)

  /** The payload `sendEvent` beacons, without the browser globals
      (timestamp, page URL, screen size, referrer). */
  datatype Event = Event(eventType: string, projectId: Option<string>, details: Details)

  /** The `projectId` key of a details object. */
  function ProjectIdKey(d: Details): Option<string>
  {
    match d
    case ModalOpenInfo(_, _, p) => p
    case ImageViewInfo(_, _, _, p) => p
    case ProjectClickInfo(_, p, _) => Some(p)
    case ClickInfo(c) => c.projectId
    case _ => None
  }

  /** The `context` key of a details object: no call site in the script
      passes one. */
  function ContextKey(d: Details): Option<string>
  {
    None
  }

  /** The `trackId` key of a details object. */
  function TrackIdKey(d: Details): Option<string>
  {
    match d
    case ClickInfo(c) => c.trackId
    case _ => None
  }

  /** `projectId || context || trackId || null`: the first truthy of the
      three keys, or null. */
  function HoistProjectId(projectId: Option<string>, context: Option<string>, trackId: Option<string>): (r: Option<string>)
    ensures Truthy(projectId) ==> r == projectId
    ensures !Truthy(projectId) && Truthy(context) ==> r == context
    ensures !Truthy(projectId) && !Truthy(context) && Truthy(trackId) ==> r == trackId
    ensures !Truthy(projectId) && !Truthy(context) && !Truthy(trackId) ==> r == None
  {
    Or(Or(Or(projectId, context), trackId), None)
  }

  /** `sendEvent(eventType, details)`: the payload with the project id hoisted
      to the top level. */
  function SendEvent(eventType: string, d: Details): (e: Event)
    ensures e.eventType == eventType && e.details == d
    ensures e.projectId.Some? ==> e.projectId.value != ""
    ensures e.projectId.Some? ==>
      e.projectId in {ProjectIdKey(d), ContextKey(d), TrackIdKey(d)}
    ensures e.projectId == HoistProjectId(ProjectIdKey(d), ContextKey(d), TrackIdKey(d))
  {
    Event(eventType, HoistProjectId(ProjectIdKey(d), ContextKey(d), TrackIdKey(d)), d)
  }

  // ---------------------------------------------------------------------
  // trackModalOpen
  // ---------------------------------------------------------------------

  /** The context object handed to `trackModalOpen`. */
  datatype ModalContext = ModalContext(
    detail: Option<string>,
    pdfPath: Option<string>,
    projectId: Option<string>,
    context: Option<string>)

  /** `path.split('/').pop().split('.')[0]`: the file name after the last
      `/`, cut before its first `.`. */
  function InferIdFromPath(path: string): (r: string)
    ensures '/' !in r && '.' !in r
  {
    var parts := Split(path, '/');
    SplitPiecesHaveNoSeparator(path, '/');
    var name := Last(parts);
    assert '/' !in name;
    SplitFirst(name, '.');
    assert forall k :: 0 <= k <= |name| ==> '/' !in name[..k];
    Split(name, '.')[0]
  }

  /** The inferred id is the stem of the text after the last `/`: everything
      up to (not including) its first `.`. */
  lemma InferIdFromPathIsStem(path: string)
    ensures var tail := path[LastIndexOf(path, '/') + 1..];
            InferIdFromPath(path) == if '.' in tail then tail[..IndexOf(tail, '.')] else tail
  {
    SplitLast(path, '/');
    SplitFirst(path[LastIndexOf(path, '/') + 1..], '.');
  }

  /** `context.detail || context.pdfPath || (context.projectId ? 'Project: …' : '')`. */
  function ModalDetail(ctx: ModalContext): (r: string)
    ensures Truthy(ctx.detail) ==> r == ctx.detail.value
    ensures !Truthy(ctx.detail) && Truthy(ctx.pdfPath) ==> r == ctx.pdfPath.value
    ensures !Truthy(ctx.detail) && !Truthy(ctx.pdfPath) && Truthy(ctx.projectId) ==>
      r == "Project: " + ctx.projectId.value
    ensures r == "" <==> !Truthy(ctx.detail) && !Truthy(ctx.pdfPath) && !Truthy(ctx.projectId)
  {
    if Truthy(ctx.detail) then ctx.detail.value
    else if Truthy(ctx.pdfPath) then ctx.pdfPath.value
    else if Truthy(ctx.projectId) then "Project: " + ctx.projectId.value
    else ""
  }

  /** The path-like detail from which `trackModalOpen` infers an id. */
  predicate HasPathDetail(ctx: ModalContext)
  {
    ctx.detail.Some? && '/' in ctx.detail.value
  }

  /** The `projectId` `trackModalOpen` reports: the given one; else one
      inferred from a path-like detail; else a non-empty `context`. */
  function ModalProjectId(ctx: ModalContext): (r: Option<string>)
    ensures Truthy(ctx.projectId) ==> r == ctx.projectId
    ensures !Truthy(ctx.projectId) && HasPathDetail(ctx) && InferIdFromPath(ctx.detail.value) != "" ==>
      r == Some(InferIdFromPath(ctx.detail.value))
    ensures (!Truthy(ctx.projectId) && !(HasPathDetail(ctx) && InferIdFromPath(ctx.detail.value) != "") &&
             Truthy(ctx.context)) ==> r == ctx.context
    ensures r.None? <==> !Truthy(ctx.projectId) && !HasPathDetail(ctx) && !Truthy(ctx.context)
    ensures r == Some("") <==>
      !Truthy(ctx.projectId) && HasPathDetail(ctx) && InferIdFromPath(ctx.detail.value) == "" && !Truthy(ctx.context)
  {
    var p0 := Or(ctx.projectId, None);
    var p1 := if !Truthy(p0) && HasPathDetail(ctx) then Some(InferIdFromPath(ctx.detail.value)) else p0;
    if !Truthy(p1) && ctx.context.Some? && |ctx.context.value| > 0 then ctx.context else p1
  }

  /** `trackModalOpen(modalId, context)`: a `modal_open` event whose detail
      is cut to 150 characters. */
  function TrackModalOpen(modalId: string, ctx: ModalContext): (e: Event)
    ensures e.eventType == "modal_open" && e.details.ModalOpenInfo?
    ensures e.details.modalId == modalId
    ensures |e.details.detail| <= 150 && e.details.detail <= ModalDetail(ctx)
    ensures |ModalDetail(ctx)| <= 150 ==> e.details.detail == ModalDetail(ctx)
    ensures |ModalDetail(ctx)| > 150 ==> |e.details.detail| == 150
    ensures e.details.projectId == ModalProjectId(ctx)
    ensures e.projectId == if Truthy(ModalProjectId(ctx)) then ModalProjectId(ctx) else None
  {
    SendEvent("modal_open", ModalOpenInfo(modalId, Take(ModalDetail(ctx), 150), ModalProjectId(ctx)))
  }

  // ---------------------------------------------------------------------
  // trackImageView
  // ---------------------------------------------------------------------

  /** The context object handed to `trackImageView`. */
  datatype ImageContext = ImageContext(
    projectId: Option<string>,
    context: Option<string>,
    slide: Option<int>,
    totalSlides: Option<int>)

  /** The `projectId` `trackImageView` reports: the given one; else a
      non-empty `context`; else, when the source splits on `/` into more
      than two parts, the second-to-last part. */
  function ImageProjectId(src: string, ctx: ImageContext): (r: Option<string>)
    ensures Truthy(ctx.projectId) ==> r == ctx.projectId
    ensures !Truthy(ctx.projectId) && Truthy(ctx.context) ==> r == ctx.context
    ensures !Truthy(ctx.projectId) && !Truthy(ctx.context) ==>
      (r.Some? <==> multiset(src)['/'] >= 2)
  {
    var p0 := Or(ctx.projectId, None);
    var p1 := if !Truthy(p0) && ctx.context.Some? && |ctx.context.value| > 0 then ctx.context else p0;
    if !Truthy(p1) && '/' in src then
      var parts := Split(src, '/');
      SplitCount(src, '/');
      if |parts| > 2 then Some(parts[|parts| - 2]) else p1
    else
      SplitCount(src, '/');
      p1
  }

  /** The id inferred from an image source is the directory name between
      its last two `/`. */
  lemma ImageProjectIdIsParentDirectory(src: string, ctx: ImageContext)
    requires !Truthy(ctx.projectId) && !Truthy(ctx.context)
    requires multiset(src)['/'] >= 2
    ensures var j := LastIndexOf(src, '/');
            0 <= j && ImageProjectId(src, ctx) == Some(src[LastIndexOf(src[..j], '/') + 1..j])
  {
    SplitCount(src, '/');
    SplitSecondToLast(src, '/');
  }

  /** `trackImageView(imageSrc, context)`: an `image_view` event whose source
      is cut to 200 characters. */
  function TrackImageView(src: string, ctx: ImageContext): (e: Event)
    ensures e.eventType == "image_view" && e.details.ImageViewInfo?
    ensures |e.details.imageSrc| <= 200 && e.details.imageSrc <= src
    ensures |src| <= 200 ==> e.details.imageSrc == src
    ensures |src| > 200 ==> |e.details.imageSrc| == 200
    ensures e.details.slide == NumberOrNull(ctx.slide)
    ensures e.details.totalSlides == NumberOrNull(ctx.totalSlides)
    ensures e.details.projectId == ImageProjectId(src, ctx)
    ensures e.projectId == if Truthy(ImageProjectId(src, ctx)) then ImageProjectId(src, ctx) else None
  {
    SendEvent("image_view", ImageViewInfo(Take(src, 200), NumberOrNull(ctx.slide),
                                          NumberOrNull(ctx.totalSlides), ImageProjectId(src, ctx)))
  }

  // ---------------------------------------------------------------------
  // window.portfolioTracker
  // ---------------------------------------------------------------------

  /** A call into the tracker's public API: `trackEvent` (which is
      `sendEvent`), `trackModalOpen` or `trackImageView`, with its
      arguments. */
  datatype TrackerCall =
    | TrackEvent(eventType: string, details: Details)
    | TrackModalOpenCall(modalId: string, modalContext: ModalContext)
    | TrackImageViewCall(imageSrc: string, imageContext: ImageContext)

  /** The payload a tracker call sends. */
  function Payload(c: TrackerCall): (e: Event)
    ensures c.TrackEvent? ==> e.eventType == c.eventType && e.details == c.details
    ensures c.TrackModalOpenCall? ==> e.eventType == "modal_open" && e.details.ModalOpenInfo? &&
                                      e.details.modalId == c.modalId
    ensures c.TrackImageViewCall? ==> e.eventType == "image_view" && e.details.ImageViewInfo?
  {
    match c
    case TrackEvent(t, d) => SendEvent(t, d)
    case TrackModalOpenCall(id, ctx) => TrackModalOpen(id, ctx)
    case TrackImageViewCall(src, ctx) => TrackImageView(src, ctx)
  }

  // ---------------------------------------------------------------------
  // The delegated click listener
  // ---------------------------------------------------------------------

  /** The nearest `<a>` ancestor of a click: its raw `href` attribute, its
      id, whether its host is the page's host, whether it opens a new tab,
      and whether it sits in the project-links or social/contact areas. */
  datatype LinkInfo = LinkInfo(
    href: Option<string>,
    id: string,
    sameHost: bool,
    targetBlank: bool,
    inProjectLinks: bool,
    inSocialOrContact: bool)

  /** The nearest `[data-track-id]` ancestor and its attributes. */
  datatype TrackedInfo = TrackedInfo(
    projectId: Option<string>,
    context: Option<string>,
    trackId: string,
    eventType: Option<string>)

  /** The nearest `.project-card` ancestor: its own `data-project-id`, and
      that of its `h3[data-project-id]` title when it has one. */
  datatype CardInfo = CardInfo(projectId: Option<string>, titleProjectId: Option<string>)

  /** Which interactive ancestors `closest` found for the clicked element.
      `projectImage` and `projectTitle` carry the matched element's
      `data-project-id`. */
  datatype ClickTarget = ClickTarget(
    card: Option<CardInfo>,
    tracked: Option<TrackedInfo>,
    projectImage: Option<string>,
    projectTitle: Option<string>,
    publicationItemLink: bool,
    themeToggle: bool,
    scrollToTop: bool,
    hamburger: bool,
    mobileNavLink: bool,
    modalCloseBtn: bool,
    link: Option<LinkInfo>,
    button: bool)

  /** The classification: event type, whether the generic listener reports
      the click, and the details it records. */
  datatype ClickDecision = ClickDecision(eventType: string, shouldTrack: bool, details: ClickDetails)

  /** The project a click belongs to: card, then tracked element, then
      project image, then project title. */
  function ContextProjectId(t: ClickTarget): (r: Option<string>)
    ensures t.card.Some? && Truthy(t.card.value.projectId) ==> r == t.card.value.projectId
    ensures t.card.Some? && !Truthy(t.card.value.projectId) && t.card.value.titleProjectId.Some? ==>
      r == t.card.value.titleProjectId
    ensures t.card.Some? && !Truthy(t.card.value.projectId) && t.card.value.titleProjectId.None? ==>
      r == t.card.value.projectId
    ensures t.card.None? && t.tracked.Some? ==>
      r == Or(t.tracked.value.projectId, Or(t.tracked.value.context, None))
    ensures t.card.None? && t.tracked.None? ==>
      r == if t.projectImage.Some? then t.projectImage else t.projectTitle
  {
    if t.card.Some? then
      var c := t.card.value;
      if !Truthy(c.projectId) && c.titleProjectId.Some? then c.titleProjectId else c.projectId
    else if t.tracked.Some? then
      Or(Or(t.tracked.value.projectId, t.tracked.value.context), None)
    else if t.projectImage.Some? then t.projectImage
    else t.projectTitle
  }

  /** Clicks that dedicated listeners elsewhere in the script report. */
  predicate HandledElsewhere(t: ClickTarget)
  {
    t.projectImage.Some? || t.projectTitle.Some? || t.publicationItemLink ||
    t.themeToggle || t.scrollToTop || t.hamburger || t.mobileNavLink || t.modalCloseBtn
  }

  /** A `#`-link to the publications list, which its own listener reports. */
  predicate PublicationsAnchor(l: LinkInfo)
  {
    Truthy(l.href) && StartsWith(l.href.value, "#") &&
    (l.id == "publications-link" || l.id == "publications-link-mobile")
  }

  /** A link is internal when it points at the page's host or its `href`
      starts with `/` or `.`. */
  function LinkType(l: LinkInfo, href: string): string
  {
    if l.sameHost || StartsWith(href, "/") || StartsWith(href, ".") then "internal" else "external"
  }

  /** The finer link type: later rules override earlier ones. */
  function LinkTypeDetail(l: LinkInfo, href: string): (r: Option<string>)
    ensures EndsWith(href, ".pdf") ==> r == Some("direct_pdf_link")
    ensures !EndsWith(href, ".pdf") && EndsWith(href, ".mp4") ==> r == Some("direct_video_link")
    ensures !EndsWith(href, ".pdf") && !EndsWith(href, ".mp4") && Includes(href, "buymeacoffee.com") ==>
      r == Some("donation_link")
    ensures (!EndsWith(href, ".pdf") && !EndsWith(href, ".mp4") && !Includes(href, "buymeacoffee.com") &&
             Includes(href, "vimeo.com")) ==> r == Some("video_platform_link")
    ensures (!EndsWith(href, ".pdf") && !EndsWith(href, ".mp4") && !Includes(href, "buymeacoffee.com") &&
             !Includes(href, "vimeo.com") && l.inSocialOrContact) ==> r == Some("social_contact_link")
    ensures (!EndsWith(href, ".pdf") && !EndsWith(href, ".mp4") && !Includes(href, "buymeacoffee.com") &&
             !Includes(href, "vimeo.com") && !l.inSocialOrContact && l.inProjectLinks) ==> r == Some("project_link")
    ensures r.None? <==>
      !l.inProjectLinks && !l.inSocialOrContact && !Includes(href, "vimeo.com") &&
      !Includes(href, "buymeacoffee.com") && !EndsWith(href, ".mp4") && !EndsWith(href, ".pdf")
  {
    var d1 := if l.inProjectLinks then Some("project_link") else None;
    var d2 := if l.inSocialOrContact then Some("social_contact_link") else d1;
    var d3 := if Includes(href, "vimeo.com") then Some("video_platform_link") else d2;
    var d4 := if Includes(href, "buymeacoffee.com") then Some("donation_link") else d3;
    var d5 := if EndsWith(href, ".mp4") then Some("direct_video_link") else d4;
    if EndsWith(href, ".pdf") then Some("direct_pdf_link") else d5
  }

  /** The click listener's decision table. */
  function ClassifyClick(t: ClickTarget): (r: ClickDecision)
    ensures HandledElsewhere(t) ==> !r.shouldTrack
    ensures r.shouldTrack <==>
      !HandledElsewhere(t) && !(t.link.Some? && PublicationsAnchor(t.link.value))
    ensures r.details.linkType.Some? <==> !HandledElsewhere(t) && t.link.Some?
    ensures r.details.linkType.Some? ==> (r.eventType == "anchor_click" <==> r.details.linkType == Some("anchor"))
    ensures r.details.linkType == Some("internal") ==>
      t.link.Some? && Truthy(t.link.value.href) && !StartsWith(t.link.value.href.value, "#") &&
      (t.link.value.sameHost || StartsWith(t.link.value.href.value, "/") || StartsWith(t.link.value.href.value, "."))
    ensures r.details.projectId.Some? <==> Truthy(ContextProjectId(t))
    ensures r.details.projectId == if Truthy(ContextProjectId(t)) then ContextProjectId(t) else None
    ensures HandledElsewhere(t) ==> r.eventType == "generic_click"
    ensures !HandledElsewhere(t) && t.link.Some? ==>
      var l := t.link.value;
      r.details.href == l.href &&
      (r.details.linkType == Some("nohref") <==> !Truthy(l.href)) &&
      (!Truthy(l.href) ==> r.eventType == "link_click") &&
      (Truthy(l.href) && StartsWith(l.href.value, "#") ==>
        r.eventType == "anchor_click" && r.details.linkType == Some("anchor")) &&
      (Truthy(l.href) && !StartsWith(l.href.value, "#") ==>
        r.eventType == "link_click" && r.details.linkType == Some(LinkType(l, l.href.value)) &&
        r.details.linkTypeDetail == LinkTypeDetail(l, l.href.value) && r.details.targetBlank == l.targetBlank)
    ensures !HandledElsewhere(t) && (t.link.Some? || t.button) ==>
      r.details.trackId == if !Truthy(ContextProjectId(t)) && t.tracked.Some? then Some(t.tracked.value.trackId) else None
    ensures !HandledElsewhere(t) && t.link.None? && t.button ==> r.eventType == "button_click"
    ensures !HandledElsewhere(t) && t.link.None? && !t.button && t.tracked.Some? ==>
      r.eventType == Or(t.tracked.value.eventType, Some("tracked_element_click")).value &&
      r.details.trackId == Some(t.tracked.value.trackId)
    ensures !HandledElsewhere(t) && t.link.None? && !t.button && t.tracked.None? ==>
      r.eventType == if t.card.Some? then "project_card_area_click" else "generic_click"
    ensures r.details.trackId.Some? ==> t.tracked.Some? && r.details.trackId.value == t.tracked.value.trackId
    ensures r.details.trackId.Some? && !HandledElsewhere(t) && (t.link.Some? || t.button) ==> r.details.projectId.None?
    ensures HandledElsewhere(t) || t.link.None? ==> r.details.href.None?
    ensures !(!HandledElsewhere(t) && t.link.Some? && Truthy(t.link.value.href) &&
              !StartsWith(t.link.value.href.value, "#")) ==>
      r.details.linkTypeDetail.None? && !r.details.targetBlank
  {
    var pid := ContextProjectId(t);
    var base := ClickDetails(if Truthy(pid) then pid else None, None, None, None, None, false);
    var trackIfNoProject := if !Truthy(pid) && t.tracked.Some? then Some(t.tracked.value.trackId) else None;
    if HandledElsewhere(t) then
      ClickDecision("generic_click", false, base)
    else if t.link.Some? then
      var l := t.link.value;
      if Truthy(l.href) then
        var h := l.href.value;
        if StartsWith(h, "#") then
          ClickDecision("anchor_click", !PublicationsAnchor(l),
            base.(href := l.href, linkType := Some("anchor"), trackId := trackIfNoProject))
        else
          ClickDecision("link_click", true,
            base.(href := l.href, linkType := Some(LinkType(l, h)), linkTypeDetail := LinkTypeDetail(l, h),
                  targetBlank := l.targetBlank, trackId := trackIfNoProject))
      else
        ClickDecision("link_click", true, base.(href := l.href, linkType := Some("nohref"), trackId := trackIfNoProject))
    else if t.button then
      ClickDecision("button_click", true, base.(trackId := trackIfNoProject))
    else if t.tracked.Some? then
      ClickDecision(Or(t.tracked.value.eventType, Some("tracked_element_click")).value, true,
                    base.(trackId := Some(t.tracked.value.trackId)))
    else if t.card.Some? then
      ClickDecision("project_card_area_click", true, base)
    else
      ClickDecision("generic_click", true, base)
  }

  /** The event the generic click listener beacons, if any. */
  function GenericClickEvent(t: ClickTarget): (e: Option<Event>)
    ensures e.Some? <==> ClassifyClick(t).shouldTrack
    ensures e.Some? ==> e.value.eventType == ClassifyClick(t).eventType
    ensures e.Some? ==> e.value.details == ClickInfo(ClassifyClick(t).details)
    ensures e.Some? ==>
              e.value.projectId ==
                if Truthy(ContextProjectId(t)) then ContextProjectId(t)
                else if Truthy(ClassifyClick(t).details.trackId) then ClassifyClick(t).details.trackId
                else None
  {
    var d := ClassifyClick(t);
    if d.shouldTrack then Some(SendEvent(d.eventType, ClickInfo(d.details))) else None
  }

  /** A click on an element the script's dedicated listeners handle is never
      also reported by the generic listener, so no click is counted twice. */
  lemma DedicatedClicksNotDoubleTracked(t: ClickTarget)
    requires HandledElsewhere(t) || (t.link.Some? && PublicationsAnchor(t.link.value) &&
                                     t.projectImage.None? && t.projectTitle.None?)
    ensures GenericClickEvent(t).None?
  {
  }

  /** Among links the generic listener reports, a link whose `href` ends in
      `.pdf` is always classified as a direct PDF link, whatever area of the
      page it sits in. */
  lemma PdfLinksClassified(t: ClickTarget)
    requires !HandledElsewhere(t) && t.link.Some?
    requires Truthy(t.link.value.href) && !StartsWith(t.link.value.href.value, "#")
    requires EndsWith(t.link.value.href.value, ".pdf")
    ensures ClassifyClick(t).eventType == "link_click"
    ensures ClassifyClick(t).details.linkTypeDetail == Some("direct_pdf_link")
  {
  }
}
