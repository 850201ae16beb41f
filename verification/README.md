# Portfolio scroll and morph logic in Dafny

This project models the small amount of exact, sequential logic inside a
single-page portfolio site built with React and GSAP. Four pieces are
modelled, one module each:

- **Geometry** (`geometry.dfy`) covers the vertex generators for the
  `clip-path` morph shapes. `generateShapes` walks the square's perimeter by
  distance and splits the triangle's indices into three edges.
  `generateShapesParametric` walks both shapes by the fraction `i / N`. Points
  are exact real pairs in the 0..100 box, and `N` is the source's constant 120.
- **SmoothScroll** (`smooth_scroll.dfy`) covers the fallback smooth scroll:
  - the quadratic ease-in-out curve;
  - one animation frame, and the run of frames over the timestamps the
    browser delivers;
  - the click rule that turns `<a href="#id">` clicks into a scroll to
    element `id`.
- **PeaceSection** (`peace_section.dfy`) covers the closing section's header
  and theme switching. The state is three booleans (`headerVisible`,
  `themeDark`, `isBlack`). They change on mount, on scrolling in, on scrolling
  back out above the section, and on a click.
- **ScrollTracker** (`scroll_tracker.dfy`) covers the scroll-direction hook,
  a fold over scroll samples.

`wrappers.dfy` holds an `Option` type, used for the `href` attribute that may
be absent.

The browser and the libraries become parameters:
- frame timestamps are a sequence of reals;
- the page offset is a real;
- `document.getElementById(id).offsetTop` is a map from id to offset;
- `window.scrollTo` is the position a frame returns.

The shapes do not share a start vertex. Index 0 is (0,0) for the primary
square, (50,0) for the triangle, and (0,100) for the parametric square, so
index-wise morphing between them also rotates the outline.
`Geometry.TriangleLandmarks` and `Geometry.ParamSquareLandmarks` state these
start points.

## Model

| member | source | states |
|---|---|---|
| Geometry.Frac | components/utils/geometry.ts:116-117 | `x % 1` for a non-negative x lies in [0,1) and leaves a whole number when subtracted |
| Geometry.SquareWalk | components/utils/geometry.ts:35-55 | the walk by distance along the perimeter; its contract is carried by `Geometry.WalkRoundTrip` and `Geometry.BoundaryRoundTrip`: a bijection between [0,400) and the outline |
| Geometry.SquarePoint | components/utils/geometry.ts:32-55 | vertex i of the primary square; its contract is carried by `Geometry.SquarePointAt`: the vertex lies on the outline at walk distance i·400/N |
| Geometry.Square | components/utils/geometry.ts:31-58 | the primary square has exactly N = 120 vertices |
| Geometry.SquareWalkOnSide | components/utils/geometry.ts:39-55 | on the closed distance range of side k, including both corners, the walk equals side k's formula. The two sides meeting at distance 100, 200 or 300 give the same corner there, so the `<=` tie-break causes no jump |
| Geometry.WalkRoundTrip | components/utils/geometry.ts:35-55 | every distance in [0,400) maps to a point on the square's outline, and the inverse (walk distance of a boundary point) recovers the distance |
| Geometry.BoundaryRoundTrip | components/utils/geometry.ts:39-55 | every point on the outline is reached by the walk at the distance the inverse gives, which lies in [0,400) |
| Geometry.SquarePointAt | components/utils/geometry.ts:32-55 | vertex i lies on the outline at walk distance i·400/N |
| Geometry.SquarePointsDistinct | components/utils/geometry.ts:32-55 | no two vertices of the primary square coincide |
| Geometry.SquareCornerHit | components/utils/geometry.ts:32-55 | vertex k·N/4 is exactly corner k of (0,0), (100,0), (100,100), (0,100) |
| Geometry.SquareEvenSpacing | components/utils/geometry.ts:32-55 | each vertex and its cyclic successor are one axis-aligned step of 400/N apart along one side |
| Geometry.TriangleStep | components/utils/geometry.ts:68-73 | the segment index and next-segment index are in {0,1,2}, the next index follows the segment cyclically, and the blend fraction is in [0,1) |
| Geometry.TrianglePoint | components/utils/geometry.ts:68-82 | vertex i of the triangle; its contract is carried by `Geometry.TrianglePointOnEdge`: the vertex lies on the edge its segment index names |
| Geometry.Triangle | components/utils/geometry.ts:68-85 | the triangle has exactly N vertices |
| Geometry.LerpOnEdge | components/utils/geometry.ts:62-82 | blending edge k's end vertices with a fraction in [0,1] gives a point on edge k's line segment inside the box |
| Geometry.TrianglePointOnEdge | components/utils/geometry.ts:68-82 | each triangle vertex lies on the edge its segment index names, hence on the triangle and in the box |
| Geometry.TriangleStepExact | components/utils/geometry.ts:69-73 | the floor of the real quotient is the integer quotient i div 40, and the fraction is (i mod 40)/40 |
| Geometry.TriangleCornerHit | components/utils/geometry.ts:62-82 | vertex k·N/3 is exactly triangle corner k |
| Geometry.ParamSquarePoint | components/utils/geometry.ts:110-136 | vertex i of the parametric square; its contract is carried by `Geometry.ParamSquareMirrors`: it is primary vertex i reflected in y = 50 |
| Geometry.ParamSideMirrors | components/utils/geometry.ts:116-136 | side k of the parametric walk, at fraction seg − k, is side k of the primary walk at distance 100·seg reflected in y = 50 |
| Geometry.ParamSquare | components/utils/geometry.ts:110-139 | the parametric square has exactly N vertices |
| Geometry.ParamSquareMirrors | components/utils/geometry.ts:110-136 | parametric vertex i is primary vertex i reflected in y = 50. So it lies on the outline, and the parametric walk runs the other way round from (0,100) |
| Geometry.ParamSquareCorner | components/utils/geometry.ts:116-136 | at a corner index the strict `<` emits the start of the later side; that start equals the end of the earlier side and is the mirrored corner |
| Geometry.ParamTriangleStep | components/utils/geometry.ts:142-156 | the parametric side index and next index are in {0,1,2}, the next index follows cyclically, and the fraction is in [0,1) |
| Geometry.ParamTrianglePoint | components/utils/geometry.ts:142-159 | vertex i of the parametric triangle; its contract is carried by `Geometry.ParamTriangleMatches`: it equals the primary triangle's vertex i |
| Geometry.ParamTriangle | components/utils/geometry.ts:142-162 | the parametric triangle has exactly N vertices |
| Geometry.ParamTriangleMatches | components/utils/geometry.ts:142-159 | the parametric side split and vertex equal the primary triangle's index for index |
| Geometry.GenerateShapes | components/utils/geometry.ts:87-91 | both primary shape lists have N vertices, so they pair index by index |
| Geometry.GenerateShapesParametric | components/utils/geometry.ts:164-168 | both parametric shape lists have N vertices |
| Geometry.ShapesOnOutline | components/utils/geometry.ts:34-85 | every vertex of both generators lies on its shape's outline |
| Geometry.ParametricAgrees | components/utils/geometry.ts:110-162 | the two triangle lists are equal, and the parametric square list is the primary one mirrored |
| Geometry.SquareLandmarks | components/utils/geometry.ts:39-55 | square vertices 0, 30, 60 and 90 are (0,0), (100,0), (100,100) and (0,100) |
| Geometry.TriangleLandmarks | components/utils/geometry.ts:62-82 | triangle vertices 0, 40 and 80 are (50,0), (100,100) and (0,100); vertex 0 differs from the square's |
| Geometry.ParamSquareLandmarks | components/utils/geometry.ts:110-136 | parametric square vertices 0, 30, 60 and 90 are (0,100), (100,100), (100,0) and (0,0) |
| SmoothScroll.EaseInOutQuad | hooks/useSmoothScroll.ts:29-34 | whichever branch the rescaled time selects, the two-branch polynomial is b plus c times the reference progress curve: two parabolas meeting at half time |
| SmoothScroll.OutBranchIsProgress | hooks/useSmoothScroll.ts:32-33 | for rescaled time u ≥ 1, the decelerating branch after `t--` equals b plus c times the second parabola |
| SmoothScroll.ProgressLandmarks | hooks/useSmoothScroll.ts:30-33 | progress is 0 at the start and 1 at the end, and both parabolas give 1/2 at half time |
| SmoothScroll.ProgressMonotone | hooks/useSmoothScroll.ts:30-33 | normalised progress never decreases over the animation |
| SmoothScroll.ProgressSymmetric | hooks/useSmoothScroll.ts:30-33 | progress at u plus progress at 2-u is 1, for every u |
| SmoothScroll.ProgressOvershoot | hooks/useSmoothScroll.ts:32-33 | past the end, normalised progress drops below 1 again |
| SmoothScroll.EaseEndpoints | hooks/useSmoothScroll.ts:29-34 | for d > 0 the curve gives b at t = 0 and b + c at t = d |
| SmoothScroll.EaseContinuous | hooks/useSmoothScroll.ts:30-33 | at t = d/2 both branches give b + c/2, so the curve does not jump where it switches |
| SmoothScroll.EaseMonotone | hooks/useSmoothScroll.ts:29-34 | for d > 0 and c ≥ 0 the position never decreases on [0,d] and stays within [b, b+c] |
| SmoothScroll.ProgressBetween | hooks/useSmoothScroll.ts:30-33 | two ordered times in [0,2] give ordered progress values within [0,1] |
| SmoothScroll.ScaledBetween | hooks/useSmoothScroll.ts:31-33 | positions b + c·p and b + c·q for 0 ≤ p ≤ q ≤ 1 and c ≥ 0 keep their order and stay within [b, b+c] |
| SmoothScroll.EaseSymmetric | hooks/useSmoothScroll.ts:29-34 | ease(t) + ease(d−t) = 2b + c |
| SmoothScroll.EaseNotClamped | hooks/useSmoothScroll.ts:29-34 | for t > d and c > 0 the result is strictly below b + c; the curve is not clamped |
| SmoothScroll.AnimationFrame | hooks/useSmoothScroll.ts:21-27 | a frame asks for another frame exactly when less than the 800 ms duration has elapsed |
| SmoothScroll.FrameEndpoints | hooks/useSmoothScroll.ts:15-24 | the first frame scrolls to the start offset, and a frame at exactly 800 ms scrolls to the target offset |
| SmoothScroll.LastFrameLanding | hooks/useSmoothScroll.ts:23-26 | the frame that stops the loop lands on the target iff it runs at exactly 800 ms or the start already was the target |
| SmoothScroll.Animate | hooks/useSmoothScroll.ts:19-27 | for the frames run until one stops the loop: each offset is the eased position for time since the first frame, and every frame but the last is under 800 ms. The run finishes iff its last frame reached 800 ms. For ascending timestamps and a downward move, the offsets within the duration never decrease and stay between start and target |
| SmoothScroll.AnchorId | hooks/useSmoothScroll.ts:42-44 | an id is produced iff the tag is `A` and the href exists and starts with `#`; the href is then `#` followed by the id |
| SmoothScroll.AnchorIdRoundTrip | hooks/useSmoothScroll.ts:42-44 | an `A` whose href is `#` plus an id yields exactly that id |
| SmoothScroll.FindElement | hooks/useSmoothScroll.ts:45-46 | an element is found iff the id is non-empty and present in the document, and the offset found is that element's |
| SmoothScroll.HandleClick | hooks/useSmoothScroll.ts:40-50 | the browser's jump is cancelled iff the click is on an in-page anchor. A scroll starts iff the id after `#` is non-empty and exists in the document, and it runs from the current offset to that element's offset |
| SmoothScroll.BareHashCancelsOnly | hooks/useSmoothScroll.ts:42-47 | a click on an `A` with href `#` cancels the browser's jump and starts no scroll, whatever ids the document holds |
| SmoothScroll.ClickScrollsToTarget | hooks/useSmoothScroll.ts:14-24 | a started scroll is at the clicked element's offset when the duration has elapsed |
| PeaceSection.Mount | components/sections/PeaceSection.tsx:19-30 | after mounting, the header is visible whatever it was before, the flag is cleared, and the theme is the page's |
| PeaceSection.OnEnter | components/sections/PeaceSection.tsx:39-42 | scrolling in shows the header and leaves the flag alone. The theme is dark iff it was dark or the section was clicked |
| PeaceSection.OnLeaveBack | components/sections/PeaceSection.tsx:43-46 | scrolling back out hides the header and sets the light theme even after a click; the flag is kept |
| PeaceSection.HandleClick | components/sections/PeaceSection.tsx:52-54 | a click sets the flag and the dark theme, and leaves the header as it was |
| PeaceSection.Run | components/sections/PeaceSection.tsx:39-54 | the state after a run of events applied in order; its contract is carried by `PeaceSection.IsBlackOnlyByClick`, `PeaceSection.HeaderFollowsLastScroll` and `PeaceSection.RunReachable` |
| PeaceSection.ClickIdempotent | components/sections/PeaceSection.tsx:52-54 | a second click changes nothing |
| PeaceSection.LeaveAndReenter | components/sections/PeaceSection.tsx:39-46 | leaving back then re-entering shows the header, with the dark theme iff the section was clicked |
| PeaceSection.IsBlackOnlyByClick | components/sections/PeaceSection.tsx:19-53 | after any run of events the flag is set iff it was set before or the run contains a click |
| PeaceSection.IsBlackMonotone | components/sections/PeaceSection.tsx:19-53 | once set, the flag stays set through any events |
| PeaceSection.LastScroll | components/sections/PeaceSection.tsx:39-46 | there is no scroll event iff every event of the run is a click; otherwise the one found is not a click and is the run's last non-click event, every later event being a click |
| PeaceSection.HeaderFollowsLastScroll | components/sections/PeaceSection.tsx:30-46 | after mounting, the header is visible iff the last scroll event, ignoring clicks, was not a leave-back |
| PeaceSection.EveryEventConsistent | components/sections/PeaceSection.tsx:39-54 | after any single event, whatever the state before, a clicked section never shows the header with the light theme |
| PeaceSection.RunReachable | components/sections/PeaceSection.tsx:19-54 | every run from mounting ends in one of the reachable states. Before a click these are: header shown with the page's theme or the light one, or header hidden with the light one. After a click, the header is shown only with the dark theme |
| PeaceSection.ReachableByRun | components/sections/PeaceSection.tsx:19-54 | conversely, each of those states is the end of some run of events from mounting |
| ScrollTracker.Init | hooks/useScroll.ts:6-10 | before any event the offset is 0 and the direction is down, and the comparison point is the offset at install |
| ScrollTracker.HandleScroll | hooks/useScroll.ts:12-17 | the direction is down iff the sample strictly exceeds the previous one, and up otherwise. Both the offset and the comparison point become the sample |
| ScrollTracker.Run | hooks/useScroll.ts:10-17 | the tracker after the samples in order; its contract is carried by `ScrollTracker.RunDependsOnLastTwo` |
| ScrollTracker.EqualSamplesReportUp | hooks/useScroll.ts:15 | two equal samples in a row report up |
| ScrollTracker.RunDependsOnLastTwo | hooks/useScroll.ts:10-16 | after any non-empty run, the offset is the latest sample, and the direction is down iff that sample exceeds the one before it (or the install offset, for the first) |

## Left out

- The circle in both generators uses `Math.cos`, `Math.sin` and `Math.PI` (components/utils/geometry.ts:21-28, 101-107). Trigonometry over the reals is not modelled.
- `toFixed(2)` rounding and the `polygon(...)` strings are not modelled. Vertices are exact reals, so IEEE-754 rounding is out of scope too.
- Geometry.Square: the vertex count is the source's constant 120, not a parameter, so the facts are proved for N = 120 only.
- The native smooth-scroll feature check, `requestAnimationFrame` scheduling and `window.scrollTo` are DOM calls. Frame timestamps are a parameter of `SmoothScroll.Animate`, and the scrolled-to offsets are its result.
- The registration and removal of the `click` and `scroll` listeners are DOM plumbing.
- PeaceSection: `isBlackRef` is updated by an effect after a render. The model treats the ref and the state as one value, so a scroll callback that runs between a click and the next render is not represented.
- PeaceSection: `sendGAEvent` is an analytics call into code outside the model, and `scrollToTop` is a one-line `window.scrollTo`. Neither changes the modelled state.
- The header and the theme are owned by the unseen parent that passes the `onToggleHeader` and `onToggleTheme` callbacks; that parent and React's re-render scheduling are not part of this model. Only the values the section's callbacks set are tracked.
- PeaceSection: both callbacks are optional and are called with `?.` (components/sections/PeaceSection.tsx:30, 40-45, 54). The model assumes the parent passes both; when one is omitted, the value it would set is left unchanged.
- The other sections, the loading screen, the cursor and the layout are GSAP timelines, ScrollTrigger pins, flubber interpolation and markup whose behaviour lives in libraries not shown.
