# Portfolio page script: the state machines of `assets/js/main.js`

This project models the logic of the portfolio site's page script. It covers five managers, each with its DOM reads replaced by plain integer, boolean and string inputs:

- **ActiveSectionManager** chooses which `section[id]` is highlighted in the navigation. A section is identified by its index in document order. The element list is captured once, at construction. Each update reads `scrollY`, `innerHeight` and `scrollHeight` from the window and every section's `offsetTop` and `offsetHeight` afresh, so the update methods take the current layout as an argument. The manager notifies `setActiveLink` only when the chosen section changes.
- **ScrollManager** and **ActiveSectionManager** share a frame-coalescing pattern. A `ticking` flag guards `requestAnimationFrame`, so a burst of scroll events leads to one update per rendered frame. Module `Frames` states this shared discipline once. Each class keeps its own `ticking` field, as the source does, and also has a `pendingFrames` field that counts the callbacks queued with the browser. ScrollManager also sets the header's "scrolled" state.
- **TypingEffect** types, pauses on, deletes and cycles through a fixed list of strings. Each `type()` call yields the text shown and the delay before the next call.
- **NavigationManager** tracks whether the responsive menu is open, which events close it, and how Tab wraps around the menu links.
- **ThemeManager** keeps the body's `data-theme` attribute and the stored `"theme"` preference. The system colour-scheme preference is an input.

Each class keeps the fields of its source class, and its methods update them as the source does. Every state-changing method is proved against a function of the old state (`Toggled`, `Step`, `Evaluate`, `Scrolled`, `Rendered`, …). The properties are then proved as lemmas about those functions.

Two details of the active-section update:
- A null result leaves the stored `currentActive` untouched (`if (activeSection && …)` at assets/js/main.js:431). It is not stored.
- The two 100-pixel margins are literals in the code (assets/js/main.js:416 and :421), so the model has them as fixed constants.

## Model

| member | source | states |
|---|---|---|
| `ActiveSection.LastContaining` | assets/js/main.js:418-428 | the result is the last section, in document order, whose range shifted up by 100 px contains scrollY; None exactly when no section's range contains it |
| `ActiveSection.Choose` | assets/js/main.js:413-428 | near the bottom (`scrollY + windowHeight >= documentHeight - 100`) the last section is chosen, whatever the other bounds; no sections gives None; otherwise the last containing section, and None iff none contains scrollY |
| `ActiveSection.ChooseActive` | assets/js/main.js:413-428 | the bottom test and the overwrite-on-match loop compute exactly `Choose` |
| `ActiveSection.Evaluate` | assets/js/main.js:430-434 | a notification (with the chosen section's id) happens iff the choice is non-null and differs from the stored section; then the stored section becomes the choice, and otherwise it is unchanged |
| `ActiveSection.EvaluateIdempotent` | assets/js/main.js:430-434 | a second update with the same inputs notifies nothing and changes nothing |
| `ActiveSection.SingleMatchIsChosen` | assets/js/main.js:418-428 | away from the bottom, a section whose shifted range is the only one containing scrollY is chosen |
| `ActiveSection.FlatSectionNeverChosen` | assets/js/main.js:421-425 | away from the bottom, a section of zero (or negative) height is never chosen |
| `ActiveSection.ScrollingDownNeverGoesBack` | assets/js/main.js:413-428 | for ordered, non-overlapping sections, a larger scrollY (same window and document height) never chooses an earlier section |
| `ActiveSection.AboutSkillsExample` | assets/js/main.js:413-428 | sections about (0, 500) and skills (500, 800), document 2000, window 800: offset 0 chooses about, 600 chooses skills, 1250 chooses skills by the bottom rule |
| `ActiveSection.BottomRuleHidesSection` | assets/js/main.js:416-417 | a section other than the last whose top lies within one window height of the document's end is never chosen, at any scroll offset |
| `ActiveSection.TilingSkipsMiddleSection` | assets/js/main.js:416-427 | sections a (0, 1300), b (1300, 200), c (1500, 500) tile a 2000-pixel page, yet with an 800-pixel window offset 1099 chooses a, 1100 chooses c, and b is chosen at no offset |
| `ActiveSection.ActiveSectionManager.constructor` | assets/js/main.js:374-378 | the section ids are captured once, nothing is active, not ticking, no frame queued |
| `ActiveSection.ActiveSectionManager.Init` | assets/js/main.js:383-386 | one `Evaluate` step from the stored section, with the layout and window at that moment; called right after construction it starts from nothing active; the frame flag is untouched |
| `ActiveSection.ActiveSectionManager.RequestTick` | assets/js/main.js:398-406 | the frame flag moves as `Frames.Requested`; the active section is untouched; at most one callback stays queued |
| `ActiveSection.ActiveSectionManager.RunFrame` | assets/js/main.js:400-403 | a rendered frame runs the queued callback, if any: one `Evaluate` step with the layout and window at that frame, then ticking is cleared; with none queued, nothing changes and nothing is notified |
| `ActiveSection.ActiveSectionManager.UpdateActiveSection` | assets/js/main.js:408-435 | with every section's geometry as given (same elements, same order), the new stored section and the notification are exactly one `Evaluate` step; the frame flag is untouched |
| `Frames.Requested` | assets/js/main.js:212-220 | after requestTick the flag is ticking; while ticking nothing further is scheduled; from a coalesced state exactly one callback is queued |
| `Frames.BurstSchedulesOnce` | assets/js/main.js:398-406 | any burst of one or more requestTick calls from a coalesced state leaves exactly one callback queued |
| `Frames.Rendered` | assets/js/main.js:214-217 | a frame runs every queued callback once and then leaves the flag idle; with nothing queued the flag is unchanged; from a coalesced state that is at most one update |
| `Scroll.Scrolled` | assets/js/main.js:201-210 | a scroll event captures the new offset, leaves the header as it is, and (from a coalesced state) leaves exactly one callback queued |
| `Scroll.BurstThenFrame` | assets/js/main.js:201-228 | any number of scroll events followed by one frame perform exactly one header update, using the offset of the last event, and leave the flag idle |
| `Scroll.Rendered` | assets/js/main.js:212-228 | a frame performs as many updates as callbacks were queued; the captured offset is kept; after an update the flag is idle and the header is scrolled iff that offset is > 50; with nothing queued the state is unchanged |
| `Scroll.NoUpdateWithoutScroll` | assets/js/main.js:212-220 | from a coalesced state, the frame after a rendered frame, with no scroll event in between, changes nothing and performs no update |
| `Scroll.ScrollManager.constructor` | assets/js/main.js:189-199 | captures the initial offset, is idle, and has made the initial header update (scrolled iff offset > 50) |
| `Scroll.ScrollManager.OnScroll` | assets/js/main.js:201-210 | the new state is `Scrolled` of the old one |
| `Scroll.ScrollManager.RequestTick` | assets/js/main.js:212-220 | only the frame flag moves, as `Frames.Requested` |
| `Scroll.ScrollManager.RunFrame` | assets/js/main.js:212-220 | the new state and the number of updates are `Rendered` of the old state |
| `Scroll.ScrollManager.UpdateHeaderShadow` | assets/js/main.js:222-228 | the header is "scrolled" iff lastScrollY > 50 (strict); nothing else changes |
| `Typing.Prefix` | assets/js/main.js:256-265 | `substring(0, end)` with end inside the string is the prefix of that length |
| `Typing.Step` | assets/js/main.js:252-281 | keeps 0 <= charIndex <= length of the current string, and the reachable-state invariant (while typing the string is incomplete, while deleting at least one character shows); the text shown is the prefix of the pre-advance string whose length is the new charIndex |
| `Typing.StepPhases` | assets/js/main.js:255-278 | each call adds one character while typing and removes one while deleting; reaching full length while typing turns to deleting with delay 2000; reaching 0 while deleting turns to typing and advances the string index modulo the number of strings (delay 50); every other call keeps the phase and waits 50 when deleting, else 100 |
| `Typing.Run` | assets/js/main.js:252-281 | any number of type() calls keeps the reachable-state invariant |
| `Typing.TypesToTheEnd` | assets/js/main.js:262-273 | typing from any point reaches the full string after length - charIndex calls and turns to deleting |
| `Typing.DeletesToTheStart` | assets/js/main.js:255-278 | deleting from charIndex c reaches the empty text after c calls and starts typing the next string |
| `Typing.OneStringPerCycle` | assets/js/main.js:252-281 | from the start of string i, exactly 2 x its length calls later the effect is at the start of string (i + 1) mod count |
| `Typing.TypingEffect.constructor` | assets/js/main.js:234-244 | the three fixed strings, at the start of the first, typing |
| `Typing.TypingEffect.Type` | assets/js/main.js:252-281 | the new state, text and delay are exactly `Step` of the old state; the invariant is kept |
| `Navigation.WrapTarget` | assets/js/main.js:168-175 | Shift-Tab on link 0 moves focus to the last link, Tab on the last link moves it to link 0, and nothing else moves focus |
| `Navigation.TabCyclesWithinMenu` | assets/js/main.js:165-178 | with the browser's default move for the other links, Tab and Shift-Tab cycle through the links modulo their number and never leave the menu |
| `Navigation.NavigationManager.constructor` | assets/js/main.js:88-95 | the menu starts closed |
| `Navigation.NavigationManager.ToggleMenu` | assets/js/main.js:102-104 | flips isOpen; focuses the first link when it opens |
| `Navigation.NavigationManager.OpenMenu` | assets/js/main.js:106-117 | opens and focuses the first link, if any |
| `Navigation.NavigationManager.CloseMenu` | assets/js/main.js:119-127 | closes |
| `Navigation.NavigationManager.OnLinkClick` | assets/js/main.js:140-146 | a link click leaves the menu closed |
| `Navigation.NavigationManager.OnResize` | assets/js/main.js:149-153 | open afterwards iff open before and the width is at most 768 |
| `Navigation.NavigationManager.HandleClickOutside` | assets/js/main.js:129-136 | open afterwards iff open before and the click was inside the menu or its button |
| `Navigation.NavigationManager.OnDocumentKeyDown` | assets/js/main.js:157-163 | Escape acts only on an open menu: it closes it and returns focus to the button; other keys change nothing |
| `Navigation.NavigationManager.OnLinkKeyDown` | assets/js/main.js:166-178 | moves focus only on Tab with the menu open, and then exactly as `WrapTarget` |
| `Theme.Toggled` | assets/js/main.js:14-36 | toggling flips darkness; the stored preference becomes "dark" iff the result is dark, else "light"; the attribute is left either "dark" or absent |
| `Theme.Loaded` | assets/js/main.js:43-53 | dark afterwards iff dark before or the preferred theme is "dark"; otherwise nothing changes; whenever the preferred theme is "dark" (stored, or nothing stored and a dark system), "dark" is stored afterwards |
| `Theme.SystemChanged` | assets/js/main.js:69-78 | a stored preference makes the system change a no-op; otherwise the theme follows the system, "dark" or "light" is stored to match, and the attribute is left "dark" or absent |
| `Theme.ToggleTwiceRestores` | assets/js/main.js:14-36 | two toggles restore the attribute iff it was absent or "dark" |
| `Theme.ToggleKeepsStorageInStep` | assets/js/main.js:24-36 | after a toggle the stored preference is "dark" iff the attribute is "dark" |
| `Theme.ToggleOverridesSystem` | assets/js/main.js:69-77 | after any toggle, system colour-scheme changes have no effect |
| `Theme.ReloadShowsToggledTheme` | assets/js/main.js:14-53 | after a toggle, a later page load served without the attribute shows the toggled theme, whatever the system prefers |
| `Theme.ThemeManager.constructor` | assets/js/main.js:3-12 | the state is the served attribute and stored entry after loadSavedTheme |
| `Theme.ThemeManager.ToggleTheme` | assets/js/main.js:14-22 | the new state is `Toggled` of the old one |
| `Theme.ThemeManager.SetDarkTheme` | assets/js/main.js:24-29 | attribute "dark", stored "dark" |
| `Theme.ThemeManager.SetLightTheme` | assets/js/main.js:31-36 | attribute removed, stored "light" |
| `Theme.ThemeManager.LoadSavedTheme` | assets/js/main.js:43-53 | the new state is `Loaded` of the old one |
| `Theme.ThemeManager.OnSystemThemeChange` | assets/js/main.js:71-77 | the new state is `SystemChanged` of the old one |

## Left out

- DOM effects are not modelled: `classList`, `setAttribute`, `focus`, the theme icon classes, and the removal of the link highlight in `setActiveLink`. A notification is returned as the section id. A focus move is returned as a link index, or as a flag for the menu button.
- The screen-reader announcement of a theme change (assets/js/main.js:55-67) is a DOM node with a timer and is not modelled.
- `requestAnimationFrame` is not modelled as timing. A rendered frame is an explicit `RunFrame` call. The `setTimeout` after `type()` is the returned delay, and the next `Type` call is made by the caller.
- The guards on missing elements are not modelled: `if (this.header)` at :226, `if (this.element)` at :247, and the optional chaining on the menu and icon elements. The model assumes these elements exist. TypingEffect's `init()` is therefore the caller's first `Type` call.
- Registering and removing the click-outside listener (:116, :126) is not modelled; this is listener bookkeeping. `HandleClickOutside` models only what the handler does when it runs.
- `localStorage` and `matchMedia` are plain fields and inputs.
- AnimationManager, PerformanceManager, the Typed.js and ScrollReveal paths, PortfolioApp initialisation, the global `toggleTheme`/`myMenuFunction` wrappers and smooth scrolling (:284-371, :453-573) are not modelled. They are foreign library calls, DOM plumbing, or one-line delegations.
- Pixel values are integers; fractional offsets are not modelled.
- `Navigation.TabCyclesWithinMenu` assumes that the browser's default Tab move goes to the neighbouring link. That default is browser behaviour, not code in the script.
- ActiveSection.ScrollingDownNeverGoesBack: proves only that scrolling down never chooses an earlier section. A downward sweep does not activate every section, even when the sections tile the page: the bottom rule (assets/js/main.js:416-417) hides any section other than the last whose shifted range lies wholly where `scrollY + windowHeight >= documentHeight - 100`, as `BottomRuleHidesSection` and `TilingSkipsMiddleSection` prove.
- ActiveSection.ActiveSectionManager.constructor: does not make the initial update itself (assets/js/main.js:380, :385), because a Dafny constructor cannot return the notification; `Init` is that call, and nothing stops a caller from calling it again.
