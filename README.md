# Agentropic website: the three components with logic of their own

This project models, in Dafny, the three components of the Agentropic website
that carry behaviour rather than static content:

- **CodeBlock** (`code_block.dfy`): a code sample highlighted from its trimmed
  text, numbered line by line, under an optional filename header, with a copy
  button. A click writes the untrimmed code to the clipboard. When the write
  resolves, the `copied` indicator turns on and a 2000 ms timer is scheduled to
  turn it off again. Earlier timers are never cancelled. The copy state is a
  value, `CopyState` (`copied`, the clock, the pending revert deadlines), with
  its transitions as functions. The class `CodeBlockComponent` is the mounted
  instance; each of its methods is specified by one of those functions.
- **Header** (`header.dfy`): the five navigation entries and the active-entry
  rule. `/` is active only on `/`; every other href is active on any pathname
  that starts with it. The five entries are shown twice, in the desktop bar and
  in the mobile menu. The header has two state variables: `isScrolled`, set by
  the scroll handler, and `isMobileMenuOpen`, flipped by the menu button and
  cleared by a mobile link click. `HeaderState` and its event functions give the
  values; `HeaderComponent` is the instance.
- **CrateCard** (`crate_card.dfy`): the status badge table, the cut of the
  feature list to three, the disabling of cards for crates that are still to
  come, and the default animation delay.

`js_builtins.dfy` states the JavaScript built-ins these use: `trim`,
`startsWith` and `Array.prototype.slice`. `wrappers.dfy` holds an `Option` type
for JavaScript's `undefined`.

The clipboard outcome, the clock, `window.scrollY` and the pathname are
parameters. The syntax highlighter is a function parameter
`tokenize(text, language)`, used as a black box.

Behaviour of the code worth knowing:
- A repeated copy does not restart the revert timer: copies at t=0 and t=1000
  leave the indicator off from t=2000 (`CodeBlock.EarlyRevertAfterRepeatedCopy`).
- `trim()` removes all leading and trailing whitespace before highlighting;
  the clipboard always gets the untrimmed code.
- A rejected clipboard write is not reported to the user: the handler's
  promise rejects and the copy state is unchanged.

## Model

| member | source | states |
|---|---|---|
| `JsBuiltins.TrimStart` | components/CodeBlock.tsx:54 | the result is a suffix of the input; everything dropped is whitespace; the result is empty or starts with non-whitespace |
| `JsBuiltins.TrimEnd` | components/CodeBlock.tsx:54 | the result is a prefix of the input; everything dropped is whitespace; the result is empty or ends with non-whitespace |
| `JsBuiltins.Trim` | components/CodeBlock.tsx:54 | `trim()` is no longer than its input and neither starts nor ends with whitespace |
| `JsBuiltins.TrimIsWhitespaceDelimitedInfix` | components/CodeBlock.tsx:54 | `trim()` is a contiguous infix of the input, and only whitespace lies before and after it |
| `JsBuiltins.TrimUnique` | components/CodeBlock.tsx:54 | whitespace + m + whitespace trims to m, when m neither starts nor ends with whitespace |
| `JsBuiltins.TrimIdempotent` | components/CodeBlock.tsx:54 | trimming twice equals trimming once |
| `JsBuiltins.StartsWith` | components/layout/Header.tsx:35 | `s.startsWith(p)` holds iff p is a sequence prefix of s |
| `JsBuiltins.Slice` | components/CrateCard.tsx:52 | `slice(start, end)` is the contiguous run between the clamped, end-relative start and end indices, empty when end <= start |
| `JsBuiltins.SliceFromStart` | components/CrateCard.tsx:52 | `slice(0, n)` is the first min(n, length) elements |
| `CodeBlock.Initial` | components/CodeBlock.tsx:24 | a new instance has `copied` false and no pending revert |
| `CodeBlock.CopyEffects` | components/CodeBlock.tsx:26-29 | a click first writes `code` itself, untrimmed, to the clipboard, and nothing else is written; `setCopied(true)` follows iff the write resolves, and `copied` is never set false; a successful click ends with exactly one revert, scheduled 2000 ms ahead; a failed one does nothing after the write |
| `CodeBlock.Copy` | components/CodeBlock.tsx:26-29 | a successful copy sets `copied` and appends exactly one deadline, now + 2000, keeping earlier ones; a failed copy leaves the whole state unchanged |
| `CodeBlock.Remaining` | components/CodeBlock.tsx:29 | the timers still pending at t are exactly the later ones, each with its multiplicity, and the filter keeps their order (it distributes over concatenation) |
| `CodeBlock.RemainingOfConcat` | components/CodeBlock.tsx:29 | filtering a concatenation is concatenating the filtered parts, so pending timers keep their scheduling order |
| `CodeBlock.Advance` | components/CodeBlock.tsx:29 | when time reaches t, every revert due by t has fired: `copied` stays on iff it was on and no deadline is due; exactly the later deadlines remain pending, with their multiplicities |
| `CodeBlock.InitialValid` | components/CodeBlock.tsx:24 | the initial state satisfies the reachable-state invariant |
| `CodeBlock.CopyPreservesValid` | components/CodeBlock.tsx:26-29 | a copy keeps deadlines sorted, within (now, now + 2000], and keeps `copied` only while a revert is pending |
| `CodeBlock.AdvancePreservesValid` | components/CodeBlock.tsx:29 | letting time pass keeps the same invariant |
| `CodeBlock.CopiedUntilEarliestRevert` | components/CodeBlock.tsx:28-29 | from a reachable state with `copied` on, it is still on at t iff t precedes the earliest pending deadline |
| `CodeBlock.ClearedStaysCleared` | components/CodeBlock.tsx:29 | without a new copy, an indicator that is off stays off |
| `CodeBlock.AdvanceTwice` | components/CodeBlock.tsx:29 | advancing to t1 and then to t2 equals advancing to t2 |
| `CodeBlock.EarlyRevertAfterRepeatedCopy` | components/CodeBlock.tsx:26-29 | copies at 0 and 1000: on at 1999, off at 2000 with the 3000 revert still pending, and off at every later time |
| `CodeBlock.ButtonIcon` | components/CodeBlock.tsx:50 | the Check icon iff `copied`, otherwise the Copy icon |
| `CodeBlock.FilenameHeader` | components/CodeBlock.tsx:35-40 | a header row exists iff `filename` is present and non-empty, and it shows `filename` and the language verbatim |
| `CodeBlock.NumberLines` | components/CodeBlock.tsx:60-73 | one rendered line per token line, in order, each with that line's tokens |
| `CodeBlock.LabelsArePositional` | components/CodeBlock.tsx:60-66 | with numbering on, the labels are exactly 1..n in order; with it off, there are none |
| `CodeBlock.Render` | components/CodeBlock.tsx:17-76 | the highlighter gets the trimmed code and the language, `"rust"` by default; the lines are its lines; labels are 1..n unless `showLineNumbers` is false; the header and icon follow the rules above |
| `CodeBlock.CopiedTextIsUntrimmed` | components/CodeBlock.tsx:26-54 | for `"fn main() {}\n"`, the clipboard gets the trailing newline and the highlighter does not |
| `CodeBlock.CodeBlockComponent.constructor` | components/CodeBlock.tsx:24 | a mounted instance starts in the initial copy state |
| `CodeBlock.CodeBlockComponent.HandleCopy` | components/CodeBlock.tsx:26-30 | writes `code` verbatim; the new state is `Copy` of the old one |
| `CodeBlock.CodeBlockComponent.Tick` | components/CodeBlock.tsx:29 | the new state is `Advance` of the old one |
| `CodeBlock.CodeBlockComponent.Icon` | components/CodeBlock.tsx:50 | Check iff `copied` |
| `CodeBlock.RepeatedCopyScenario` | components/CodeBlock.tsx:26-29 | through the instance: copies at 0 and 1000 show the Copy icon at 2000, and only the 3000 revert is still pending |
| `Header.IsActive` | components/layout/Header.tsx:33-36 | `/` is active iff the pathname is exactly `/`; any other href is active iff the pathname is present and has href as a string prefix |
| `Header.IsActiveExamples` | components/layout/Header.tsx:35 | `/docsx` and `/docs/getting-started` activate `/docs`; `/` and a missing pathname do not |
| `Header.NavHrefsPrefixFree` | components/layout/Header.tsx:12-18 | no nav href is `/`, and none is a prefix of another |
| `Header.AtMostOneActive` | components/layout/Header.tsx:12-36 | for any pathname, two different nav items are never both active |
| `Header.DesktopNav` | components/layout/Header.tsx:61-71 | one desktop link per nav item, in order, with its title, href and active flag; its class string ends in `active` iff the item is active |
| `Header.MobileNav` | components/layout/Header.tsx:119-132 | one mobile link per nav item, in order, with its title, href and active flag; its class string ends in the highlighted colours iff the item is active, in the muted colours otherwise |
| `Header.DesktopAndMobileAgree` | components/layout/Header.tsx:61-132 | desktop and mobile lists have equal length and agree at every position on everything except styling |
| `Header.DesktopHasAtMostOneActive` | components/layout/Header.tsx:65-67 | at most one desktop link gets the `active` class: once one has it, every other link's class string is the base classes alone |
| `Header.OnScroll` | components/layout/Header.tsx:26-28 | `isScrolled` becomes `scrollY > 10`; the menu is untouched |
| `Header.OnToggle` | components/layout/Header.tsx:100 | the menu state is negated; `isScrolled` is untouched |
| `Header.OnNavLinkClick` | components/layout/Header.tsx:123 | the menu is closed; `isScrolled` is untouched |
| `Header.ToggleTwice` | components/layout/Header.tsx:100 | two toggles restore the original state |
| `Header.ScrolledFollowsLastScroll` | components/layout/Header.tsx:21-28 | after any events, `isScrolled` equals `y > 10` for the last scroll event y, or its starting value when there was none |
| `Header.MenuFollowsToggleParity` | components/layout/Header.tsx:100-123 | after any events, the menu is open iff it was toggled an odd number of times since the last link click, starting closed (or from its initial state when there was no click) |
| `Header.LinkClickCloses` | components/layout/Header.tsx:123 | whatever came before, a mobile link click leaves the menu closed |
| `Header.Render` | components/layout/Header.tsx:39-132 | the background class follows `isScrolled`; the X icon and the mobile menu appear iff the menu is open; the mobile menu holds `MobileNav` |
| `Header.HeaderComponent.constructor` | components/layout/Header.tsx:21-22 | both state variables start false |
| `Header.HeaderComponent.HandleScroll` | components/layout/Header.tsx:26-28 | `isScrolled` becomes `scrollY > 10`; the menu is unchanged |
| `Header.HeaderComponent.ToggleMobileMenu` | components/layout/Header.tsx:100 | the menu state is negated; `isScrolled` is unchanged |
| `Header.HeaderComponent.CloseMobileMenu` | components/layout/Header.tsx:123 | the menu is closed; `isScrolled` is unchanged |
| `CrateCard.StatusConfig` | components/CrateCard.tsx:18-22 | every status has a badge: "Stable", "Beta", "Coming Soon", with class `crate-badge ` followed by the status key |
| `CrateCard.StatusConfigInjective` | components/CrateCard.tsx:18-22 | different statuses get different badge classes and texts |
| `CrateCard.ShownFeatures` | components/CrateCard.tsx:52 | exactly min(3, number of features) badges: the first features, in order |
| `CrateCard.EffectiveDelay` | components/CrateCard.tsx:24 | the delay is 0 when omitted, otherwise the given value |
| `CrateCard.LinkClasses` | components/CrateCard.tsx:36-39 | the link always starts with `feature-card block h-full`; `opacity-60 pointer-events-none` follow iff the status is `coming-soon`, and nothing follows otherwise |
| `CrateCard.Render` | components/CrateCard.tsx:24-67 | the card's link classes are `LinkClasses` of its status; the card shows the status badge, the shown features and the given delay; it has the "View documentation" row iff the status is not `coming-soon` |
| `CrateCard.DisabledIffNoDocumentationRow` | components/CrateCard.tsx:36-64 | the link has `opacity-60 pointer-events-none` iff it has no documentation row, that is iff the status is `coming-soon` |
| `CrateCard.BaseClassesAlwaysPresent` | components/CrateCard.tsx:37 | every card keeps `feature-card block h-full` |

## Left out

- The `await` on `navigator.clipboard.writeText` is collapsed into the click: its outcome is an input to `HandleCopy`, and it resolves at the click's instant. Clicks that overlap a pending write are not modelled.
- Timers fire exactly at their deadline, and a timer due at `t` runs before a click at `t`. The browser's timer latency and ordering are not modelled.
- Syntax highlighting (`prism-react-renderer`, its themes and `getLineProps`/`getTokenProps`) is the opaque parameter `tokenize`.
- `cn` (from `lib/utils`) is not part of this model. The CrateCard link classes are a list of class tokens. The CodeBlock `className` prop is not modelled.
- The scroll listener's registration and removal (`addEventListener`/`removeEventListener`) are host I/O. Only the handler is modelled.
- All `framer-motion` behaviour is not modelled: viewport reveal, `once`, durations, stagger, `AnimatePresence`. Delays are kept as `real` values handed on.
- Next.js `Link` navigation, `usePathname` (its value is a parameter), the logo, the GitHub and Get Started links, and `ThemeToggle` are not modelled.
- JavaScript strings are UTF-16. The model uses Unicode scalar values. Every character `trim` removes is in the Basic Multilingual Plane, so trimming agrees.
- Static content pages, the site layout, the sitemap and the footer carry no logic and are not modelled.
