# 4Plus Technical Services site: UI state machines

The site is a single-page marketing front end for an MEP (mechanical,
electrical, plumbing) engineering company. Almost all of it is static markup
and animation settings. Three components hold sequential state, and this
project models them and proves their rules:

- **Header** (`header.dfy`, module `HeaderScroll`). The fixed navigation bar
  hides while the page scrolls down past 100 px and reappears on any other
  scroll. Past 50 px it sets an `isScrolled` flag, which the rendered header
  never reads. Hiding force-closes
  the mobile menu. Scroll events are coalesced through a `ticking` flag: the
  first event requests an animation frame, and later events are dropped until
  that frame has processed the window's offset. The class `HeaderController`
  holds the component's fields and has one method per event handler. The pure
  functions `Frame`/`Frames` (one frame, a run of frames) and
  `Dispatch`/`Replay` (scroll events and frames together) specify it, and the
  lemmas about them state the rules over whole runs.
- **Hero carousel** (`hero.dfy`, module `HeroCarousel`). A fixed list of three
  slides. A 5-second interval advances the current slide with wrap-around.
  Indicator dots jump straight to a slide and leave the timer running.
  Unmounting clears the timer. The class `HeroBanner` holds `currentSlide` and
  whether the timer is installed. `Next`, `AfterTicks`, `Step` and `Run`
  specify it.
- **Floating contact button** (`floating_actions.dfy`, module
  `FloatingActions`). One `isOpen` flag, flipped by the button, decides
  everything rendered: the WhatsApp/Call/Email shortcut list, the button icon,
  its accessible label and the pulsing badge. `Render` is the view as a
  function of the flag.

Each module ends with short client methods (`…Scenario`). These drive the
class only through its method contracts and pin down concrete runs: offsets
0, 30, 20 keep the header visible; ticks show slide indices 0, 1, 2, 0, 1, 2; a jump
to index 2 followed by a tick shows index 0.

Browser time is modelled as discrete events. An animation frame is a call to
`OnFrame(y)`, where `y` is the window offset when the frame runs. A timer tick
is a call to `Tick()`. The DOM lookup behind a navigation click is a
parameter: the set of selectors that match an element.

The shortcut list is WhatsApp, Call, Email, in that order
(`src/components/FloatingActions.tsx:8-27`).

## Model

| member | source | states |
|---|---|---|
| `HeaderScroll.Translation` | src/components/Header.tsx:58 | the header sits at 0 exactly when visible and is moved up by 100 when hidden |
| `HeaderScroll.FramesLast` | src/components/Header.tsx:24-35 | after any non-empty run of frames: the recorded offset is the last one; the `isScrolled` flag (never read by the render) is set iff it exceeds 50; the header is hidden iff the last offset exceeds both the previous one and 100; a hidden header has the menu closed |
| `HeaderScroll.VisibilityAlongRun` | src/components/Header.tsx:28-33 | after the k-th frame of any run, the header is hidden iff the k-th offset grew past the one before it and past 100; whenever it is hidden the mobile menu is closed |
| `HeaderScroll.NeverPastThresholdStaysVisible` | src/components/Header.tsx:28-33 | a visible header stays visible after every frame of any run whose offsets never exceed 100 (e.g. 0, 30, 20), in any order |
| `HeaderScroll.ShallowFrameShows` | src/components/Header.tsx:28-33 | whatever the starting state, after every frame of a run whose offsets never exceed 100 the header is visible, so one shallow frame brings a hidden header back |
| `HeaderScroll.ScrollingDownStaysHidden` | src/components/Header.tsx:28-30 | a strictly increasing run of offsets above 100 that starts above the recorded offset keeps the header hidden and the menu closed after every frame |
| `HeaderScroll.RequestsAccountedFor` | src/components/Header.tsx:19-40 | over any mix of scroll events and frames, every requested frame has run exactly one update or is the single pending one; updates never outnumber requests |
| `HeaderScroll.ReplayIsFrames` | src/components/Header.tsx:21-38 | over any mix of scroll events and frames, the header state is the state after the processed offsets alone, so the run lemmas above apply to event runs |
| `HeaderScroll.BurstRequestsOnce` | src/components/Header.tsx:21-39 | a burst of scroll events requests exactly one frame when none was pending and none otherwise, and leaves the header state unchanged |
| `HeaderScroll.HeaderController.constructor` | src/components/Header.tsx:6-19 | starts not scrolled, visible, at offset 0, menu closed, nothing pending |
| `HeaderScroll.HeaderController.ProcessScroll` | src/components/Header.tsx:24-35 | `isScrolled` (never read by the render) iff y > 50; hidden iff y > previous offset and y > 100; hiding closes the menu, showing leaves it as it was; the offset is recorded whatever the branch |
| `HeaderScroll.HeaderController.OnScrollEvent` | src/components/Header.tsx:21-39 | requests a frame exactly when none is pending; afterwards one is pending; the header state is untouched |
| `HeaderScroll.HeaderController.OnFrame` | src/components/Header.tsx:23-37 | runs the update exactly when a frame was requested; afterwards nothing is pending |
| `HeaderScroll.HeaderController.ToggleMenu` | src/components/Header.tsx:121 | flips the mobile menu flag, so two presses restore it; nothing else changes |
| `HeaderScroll.HeaderController.CloseMenu` | src/components/Header.tsx:188 | the close button (and the backdrop, line 165) always leave the menu closed; nothing else changes |
| `HeaderScroll.HeaderController.NavClick` | src/components/Header.tsx:46-52 | always closes the menu; scrolls iff the target section exists |
| `HeaderScroll.AboutLinkHasNoTarget` | src/components/Header.tsx:13 | the "About Us" link targets `#about`, which no element of the page carries; the services and contact links target existing sections |
| `HeaderScroll.EveryNavItemHasTarget` | src/components/Header.tsx:12-16 | once the about section has its id, every link targets a section and every section is linked |
| `HeaderScroll.NavClickScenario` | src/components/Header.tsx:46-52 | clicking the three links from an open menu closes the menu each time; on the page as written only the services and contact clicks scroll |
| `HeaderScroll.ShallowScrollScenario` | src/components/Header.tsx:28-33 | offsets 0, 30, 20 from page load leave the header visible after each frame |
| `HeaderScroll.HideClosesMenuScenario` | src/components/Header.tsx:28-33 | with the menu open, scrolling to 150 hides the header and closes the menu; going back to 120 shows the header, menu still closed |
| `HeroCarousel.Next` | src/components/Hero.tsx:32 | a tick moves to the following slide, and from the last slide back to the first; the result is always a valid index |
| `HeroCarousel.AfterTicksWraps` | src/components/Hero.tsx:31-33 | n ticks from slide s land on slide (s + n) mod 3 |
| `HeroCarousel.TicksFromMount` | src/components/Hero.tsx:28-33 | with no jumps, n ticks after mount show slide n mod 3 (0, 1, 2, 0, 1, …), both counted directly and as a run of tick events from the mounted carousel, whose timer stays running |
| `HeroCarousel.Indicators` | src/components/Hero.tsx:145-151 | one dot per slide; dot i is highlighted iff i is the current slide |
| `HeroCarousel.ExactlyOneDotActive` | src/components/Hero.tsx:149-150 | for a valid current slide exactly one dot is highlighted, the current one |
| `HeroCarousel.CurrentInRange` | src/components/Hero.tsx:28-35 | after any sequence of ticks, dot clicks and teardown, the current slide is a valid index |
| `HeroCarousel.JumpThenTick` | src/components/Hero.tsx:148 | clicking dot k keeps the timer running, and the next tick shows (k + 1) mod 3 |
| `HeroCarousel.TornDownIsFrozen` | src/components/Hero.tsx:34 | after teardown, any number of ticks leaves the carousel unchanged |
| `HeroCarousel.TicksOnly` | src/components/Hero.tsx:30-33 | a run of ticks on a running carousel agrees with counting ticks and keeps the timer running |
| `HeroCarousel.HeroBanner.constructor` | src/components/Hero.tsx:28-33 | mounting shows slide 0 and starts the timer: the mounted carousel state |
| `HeroCarousel.HeroBanner.Tick` | src/components/Hero.tsx:31-33 | advances to the next slide while the timer runs and does nothing after teardown; the index stays valid |
| `HeroCarousel.HeroBanner.JumpTo` | src/components/Hero.tsx:148 | sets the current slide to the clicked dot and leaves the timer as it was |
| `HeroCarousel.HeroBanner.Teardown` | src/components/Hero.tsx:34 | stops the timer and leaves the current slide in place |
| `HeroCarousel.HeroBanner.Shown` | src/components/Hero.tsx:52 | the banner always shows one of the three slides |
| `HeroCarousel.RotationScenario` | src/components/Hero.tsx:28-33 | five ticks after mount show slides 0, 1, 2, 0, 1, 2 |
| `HeroCarousel.JumpScenario` | src/components/Hero.tsx:31-34 | jumping to the last slide and ticking once shows the first; after teardown a tick changes nothing |
| `FloatingActions.ShortcutLinks` | src/components/FloatingActions.tsx:8-46 | the shortcuts are WhatsApp, Call, Email in that order, with distinct links; only WhatsApp opens in a new tab with `noopener noreferrer`, the others set neither |
| `FloatingActions.Render` | src/components/FloatingActions.tsx:33-117 | the shortcut list is shown iff open; the badge iff closed; the icon is the close cross iff open, the phone otherwise; the label reads "Close contact menu" when open and "Open contact menu" when closed |
| `FloatingActions.RenderDeterminesFlag` | src/components/FloatingActions.tsx:77 | the open and the closed views differ in each of the badge, the icon, the label and the shortcut list, and the flag can be read back from the view |
| `FloatingActions.PressParity` | src/components/FloatingActions.tsx:73 | after n presses the menu is back in its starting state iff n is even |
| `FloatingActions.FloatingMenu.constructor` | src/components/FloatingActions.tsx:6 | the menu starts closed |
| `FloatingActions.FloatingMenu.Toggle` | src/components/FloatingActions.tsx:73 | flips the open flag |
| `FloatingActions.DoubleToggleScenario` | src/components/FloatingActions.tsx:73 | opening and pressing again shows the closed view: no shortcuts, badge on |

## Left out

- Animation (framer-motion variants, durations, easing, springs, infinite loops, `AnimatePresence`): calls into a library whose code is not part of this model, with floating-point timing.
- Wall-clock timing: `requestAnimationFrame` and the 5000 ms `setInterval` become the discrete calls `OnFrame` and `Tick`.
- Listener re-registration: the scroll listener is re-registered, with a fresh `ticking`, whenever `lastScrollY` changes (Header.tsx:18-44). React does this after it re-renders, some time after the frame. The model keeps one listener with one flag, so it assumes the re-registration happens before the next scroll event arrives. A scroll event in that gap reaches the old listener, whose flag is already clear, and two things follow that the model does not capture. (1) The frame it requests compares against the old listener's stale `lastScrollY`: from 0, a frame at 200 hides the header, and a stale frame at 150 then compares 150 > 0 and keeps it hidden where `Frame` would show it. (2) The new listener starts with its flag clear while that frame may still be pending, so two frames can be outstanding at once, which `RequestsAccountedFor` rules out for the single-flag model.
- DOM effects: `querySelector`/`scrollIntoView` become the `sections` parameter of `NavClick` and its result; `document.title`, `window.scrollTo` and the map iframe live in other components that are not part of this model.
- Rendering driven by the header's menu flag (the menu/close icon, the mobile panel) and by hover state (`hoveredIndex`, `isHovered`): CSS classes and icons only, no rule beyond following the flag.
- Slide `overlayOpacity` (floating-point, purely visual) and the dots' "Go to slide N" labels: not modelled.
- Nav item colours: the header's `NavItems` keeps each entry's name and target only.
- `HeaderScroll.HeaderController.ProcessScroll`: offsets are unbounded integers. Fractional offsets that a browser may report are not modelled.
- `HeroCarousel.HeroBanner.JumpTo`: requires the dot index to be a valid slide. This holds because the dots are generated from the slide list itself (Hero.tsx:145).
- Static sections (About, Services, Contact, Footer, VisionMission, App): content and layout only, with no state.

## Findings

| source | as written | input that shows it | evidently intended | confidence | as-written member | corrected member |
|---|---|---|---|---|---|---|
| src/components/Header.tsx:13 | the "About Us" link targets `#about`, but the about section (src/components/About.tsx:17) has no id; only src/components/Services.tsx:61 and src/components/Contact.tsx:41 carry one | a click on "About Us": `querySelector('#about')` finds nothing, so the menu closes and the page does not scroll | the about section carries `id="about"`, so every header link scrolls to its section | high, not executed | `HeaderScroll.AboutLinkHasNoTarget` | `HeaderScroll.EveryNavItemHasTarget` |
