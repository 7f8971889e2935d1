# Portfolio page logic, modelled in Dafny

A model of the three pieces of real logic in a personal portfolio site
(a Next.js/React page). The rest of the site is declarative markup.

- **Typewriter effect** (`TypewriterEffect` in app/page.tsx). The hero section
  types out a fixed list of five phrases one character every 100 ms. When a
  phrase is complete it waits 1500 ms, deletes it one character every 50 ms,
  and moves on to the next phrase, wrapping around after the last one. Module
  `Typewriter` holds the state machine and the component as a class; module
  `TypewriterCycle` proves what whole runs do.
- **Active-section tracker and navigation** (`handleScroll`, `scrollToSection`
  and the navigation bar in app/page.tsx), module `SectionTracker`. On each
  scroll event the page finds the section under a probe 200 px below the top
  of the viewport and highlights its navigation button. A navigation click
  scrolls so that the section top sits 80 px below the top of the viewport.
- **Theme hook** (`useTheme` in hooks/use-theme.ts), module `Theme`. The theme
  starts dark. On mount the hook adopts a stored "light" or "dark" preference.
  A toggle flips the theme, stores it, and sets the document's `dark` class.

Each stateful piece is a class whose methods are proved against a pure
function of the old state. The properties are proved as lemmas about those
functions.

The browser is abstracted:
- Timers become methods the host calls: `Tick` for the tick timer and
  `FirePause` for the 1500 ms timer.
- Section measurements and the scroll position are parameters.
- `localStorage` is a `map<string, string>`.
- The document's `dark` class is a `bool`.

The typewriter class has one field beyond the source's three state variables,
`pauseArmed`. It stands for the outstanding 1500 ms timer. The tick that sees
the whole phrase changes no React state, because the text is already full.
While nothing else re-renders the component, it then does not re-render, the
effect does not run again, and no new tick is scheduled; only the pause timer
is pending. `Tick` therefore requires `!pauseArmed` and `FirePause` requires
`pauseArmed`. `TickRerendersUnlessPaused` proves that a tick changes the state
exactly when it does not arm the pause. So, while nothing else re-renders the
component, exactly one timer is pending at any time.

- The active section starts as "home" (app/page.tsx:71).
- A phrase takes `2 * |p| + 3` host steps, because the "full" and "empty"
  tests use the text from before the step (app/page.tsx:43, 48). One tick
  after the text reaches the whole phrase arms the pause, and one tick after
  the text reaches "" advances the index. In the two-phrase trace
  (`GoRustTrace`) the index changes one tick after "" appears.

## Model

| member | source | states |
|---|---|---|
| `Typewriter.Substring` | app/page.tsx:37-39 | `substring(0, n)` clamps `n` to `[0, len]` and gives the prefix of that length. So typing stops at the whole phrase and deleting stops at "". |
| `Typewriter.TickStep` | app/page.tsx:32-52 | One tick preserves the invariant: the index is in `[0, n)`, the text is a prefix of the current phrase, and the pause is armed only while typing with the whole phrase shown. This holds just after the index advances too. |
| `Typewriter.PauseStep` | app/page.tsx:45 | The 1500 ms timer only turns deleting on. Phrase and full text stay, and no pause stays armed. |
| `Typewriter.HostStep` | app/page.tsx:28-58 | Firing whichever timer is pending preserves the invariant. |
| `Typewriter.TickRerendersUnlessPaused` | app/page.tsx:43-45 | A tick changes the React state (so a new tick is scheduled) if and only if it does not arm the pause. While nothing else re-renders the component, exactly one timer is pending. |
| `Typewriter.TypingTick` | app/page.tsx:39 | A typing tick appends exactly the next character of the phrase while the text is shorter. Once the text is the whole phrase it leaves the text unchanged and arms the pause. |
| `Typewriter.DeletingTick` | app/page.tsx:37 | A deleting tick removes exactly the last character while the text is non-empty. On "" it leaves "", stops deleting and moves to index `(i + 1) % n`. |
| `Typewriter.IndexAdvancesOnlyOnWrap` | app/page.tsx:48-51 | The index changes only on a deleting tick whose earlier text was "", and only to `(i + 1) % n`. Such a tick always changes it that way. |
| `Typewriter.OnlyPauseStartsDeleting` | app/page.tsx:43-45 | No tick turns deleting on. A tick arms the pause if and only if it is typing and its earlier text was the whole phrase. |
| `Typewriter.TypewriterEffect.constructor` | app/page.tsx:24-26 | Mount state: phrase 0, empty text, typing, no pause armed. |
| `Typewriter.TypewriterEffect.Tick` | app/page.tsx:29-55 | The timer callback updates the fields exactly as `TickStep`. It returns a pause of 1500 ms when it armed one. Otherwise it returns the next tick's delay: 50 ms while deleting, 100 ms while typing. |
| `Typewriter.TypewriterEffect.FirePause` | app/page.tsx:45 | The pause timer sets deleting, as `PauseStep`. The next tick comes after 50 ms. |
| `TypewriterCycle.HostSteps` | app/page.tsx:28-58 | Any number of host steps preserves the invariant. |
| `TypewriterCycle.HostStepsAdd` | app/page.tsx:28-58 | `a + b` steps are `a` steps followed by `b` steps. |
| `TypewriterCycle.TypesOut` | app/page.tsx:24-26 | From `(i, "", typing)`, `k ≤ |p|` ticks show the first `k` characters of phrase `i`. After `|p|` ticks the whole phrase is shown. |
| `TypewriterCycle.DeletesOut` | app/page.tsx:37 | From the whole phrase while deleting, `k ≤ |p|` ticks leave its first `|p| - k` characters. |
| `TypewriterCycle.TypeAndPause` | app/page.tsx:39-45 | `|p| + 1` typing ticks plus the pause reach `(i, p, deleting)`. |
| `TypewriterCycle.DeleteAndWrap` | app/page.tsx:37-51 | `|p| + 1` deleting ticks from `(i, p, deleting)` reach `((i + 1) % n, "", typing)`. |
| `TypewriterCycle.PhraseCycle` | app/page.tsx:37-51 | Per-phrase round trip: from `(i, "", typing)`, `2 * |p| + 3` host steps end at `((i + 1) % n, "", typing)`. |
| `TypewriterCycle.RotationReaches` | app/page.tsx:48-51 | After the first `j` phrases have each had a cycle, the animator starts phrase `j % n`. |
| `TypewriterCycle.FullRotation` | app/page.tsx:24-26 | One cycle per phrase returns the animator to its mount state `(0, "", typing)`. |
| `TypewriterCycle.RotationsRepeat` | app/page.tsx:24-26 | Any whole number of rotations ends at the mount state. |
| `TypewriterCycle.SiteRotation` | app/page.tsx:16-22 | For the site's five phrases a rotation is 199 host steps and returns to the mount state. |
| `TypewriterCycle.GoRustTrace` | app/page.tsx:37-51 | For phrases ["Go", "Rust"] the steps run "G", "Go", pause armed, deleting, "G", "", then phrase 1 with "". |
| `SectionTracker.LastMatch` | app/page.tsx:80-87 | Finds the last section in document order whose half-open range `[top, top + height)` holds the probe. It finds none exactly when no section does. |
| `SectionTracker.ActiveIsKnown` | app/page.tsx:78-86 | After a scroll event the active id is either the previous one, when no section holds `scrollY + 200`, or the id of a section that holds it. |
| `SectionTracker.HomeAboutScenario` | app/page.tsx:78-86 | Sections home [0, 800) and about [800, 1400) give these results. scrollY 700 gives "about". scrollY 0 gives "home". scrollY 1300 leaves "about". |
| `SectionTracker.ScrollIdempotent` | app/page.tsx:76-88 | A second scroll event with the same position and layout changes nothing. |
| `SectionTracker.ScrollSpy.constructor` | app/page.tsx:71 | The active section starts as "home". |
| `SectionTracker.ScrollSpy.HandleScroll` | app/page.tsx:76-88 | The loop leaves the active id equal to the id of the last section holding `scrollY + 200`. If no section holds it, the id is unchanged. |
| `SectionTracker.FindById` | app/page.tsx:96 | Finds the first section carrying the id, or none exactly when no section carries it. |
| `SectionTracker.ScrollTarget` | app/page.tsx:95-103 | A known id yields exactly `offsetTop - 80` of the first section in document order with that id, the one `getElementById` returns. An unknown id yields nothing (no scroll, no error). |
| `SectionTracker.NavLabel` | app/page.tsx:122 | A button's label has the id's length, its first character upper-cased and the rest of the id unchanged. |
| `SectionTracker.NavLabels` | app/page.tsx:114-123 | The five buttons read Home, About, Experience, Projects, Contact. |
| `SectionTracker.OneHighlight` | app/page.tsx:114-120 | At most one navigation button is highlighted. On first render only Home is. |
| `Theme.Parse` | hooks/use-theme.ts:7-8 | A stored string is a theme if and only if it is exactly "light" or "dark". It then names that theme. |
| `Theme.ParseName` | hooks/use-theme.ts:8-17 | What the toggle writes, the restore check accepts as the same theme. |
| `Theme.Flip` | hooks/use-theme.ts:15 | The toggled theme always differs from the current one. |
| `Theme.FlipTwice` | hooks/use-theme.ts:15 | Toggling twice gives back the theme. |
| `Theme.Mount` | hooks/use-theme.ts:4 | The theme is Dark before any restore. Storage and class flag are whatever the browser holds. |
| `Theme.Restored` | hooks/use-theme.ts:6-12 | A stored "light" or "dark" is adopted, and the dark class is set if and only if it is "dark". A missing or invalid value changes nothing, including the class flag. |
| `Theme.Toggled` | hooks/use-theme.ts:14-19 | The theme flips and `storage["theme"]` names the new theme. No other key changes and no key is removed. The dark class is set if and only if the new theme is Dark. |
| `Theme.ToggleTwice` | hooks/use-theme.ts:14-19 | Two toggles restore the theme and leave the class matching it. |
| `Theme.TogglePersists` | hooks/use-theme.ts:6-19 | After a toggle, a reload restores the toggled theme and class from storage. |
| `Theme.ThemeHook.constructor` | hooks/use-theme.ts:4 | The hook starts with the theme Dark. |
| `Theme.ThemeHook.Restore` | hooks/use-theme.ts:6-12 | The mount effect changes the state exactly as `Restored` and never writes storage. |
| `Theme.ThemeHook.Toggle` | hooks/use-theme.ts:14-19 | `toggleTheme` changes the state exactly as `Toggled`. It writes only key "theme", with the new theme's name. |

## Left out

- Real timers (`setTimeout`, `clearTimeout`) and the React effect lifecycle. The host calls `Tick` and `FirePause`.
- Re-renders of the typewriter caused from outside it. Its effect lists `phrases`, an array literal rebuilt on every render (app/page.tsx:16-22, 58), so the effect re-runs on every render. The typewriter sits inside `Portfolio` (app/page.tsx:168), which re-renders whenever the active section changes (app/page.tsx:85). Such a re-render during the 1500 ms pause schedules a new tick while the pause is armed. That tick arms a second pause timer (app/page.tsx:45), which can set deleting while the next phrase is being typed. The model assumes no outside re-render, so `Tick` requires that no pause is armed.
- Unmounting. The 1500 ms timer is never cleared on unmount (app/page.tsx:45), and the scroll listener is registered and removed. Both are lifecycle concerns outside the step logic.
- DOM measurement (`querySelectorAll`, `offsetTop`, `offsetHeight`), `window.scrollTo` and the `scroll` listener wiring. Sections and `scrollY` are inputs, and a scroll target is returned, not performed.
- `document.getElementById` searches every element of the page. `FindById` searches the measured sections only.
- Fractional scroll positions and layout values. Positions are integers.
- JavaScript strings are UTF-16 code units. Here a string is a sequence of Dafny characters.
- SectionTracker.NavLabel: upper-cases ASCII letters only, because `toUpperCase` applies full Unicode case mapping, which is not modelled. Every navigation id on the page is ASCII.
- Real `localStorage` and `document.documentElement.classList`. They are a map and a flag.
- The next-themes provider configured in app/layout.tsx. It is an external library, not part of this model.
- The markup, styling and animations of app/page.tsx, the content components, and the footer year taken from the clock.
