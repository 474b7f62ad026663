# Time Right Production site — verified model of its stateful logic

The site is a marketing website. Its pages are markup and scroll animations.
This project models in Dafny the five pieces of it that make decisions:

- **The instructor carousel** (`carousel.dfy`, module `Carousel`). It is a
  circular list of `n` members with six state cells:
  - the main slot (`current`) and the side slot (`secondary`);
  - two off-screen buffers, `nextBuffer` and `prevBuffer`;
  - the transition lock `isAnimating`;
  - the last known cursor side.

  A click is ignored while a transition runs or when there are fewer than two
  members. Otherwise it takes the lock and plans a forward step (cursor on the
  right) or a backward step. The timeline's completion callback commits the
  plan and releases the lock. An effect then recomputes both buffers.
  Class `Navigator` holds the cells. Each method is proved to leave the
  state given by a pure function on the `View` value: `PointerMove` sets
  only the side, to `SideOf(x, width)`; `Nav` gives `AfterNav` and returns
  `NavPlan`; `Complete` gives `AfterComplete`; `Settle` gives `AfterSettle`.
  The lemmas state
  the carousel's promises about those functions:
  - at rest the side slot shows `(current + 1) mod n`;
  - forward and backward steps undo each other;
  - after any sequence of settled clicks the main slot has moved by
    (forward − backward) mod n.
- **The locale redirect decision** of the request proxy (`locale_proxy.dfy`).
  It maps a URL path to a redirect under `/tr` or to pass-through.
- **The CDN image URL builder** for instructor photos (`instructor_image.dfy`).
- **The quicksort** (`quicksort.dfy`). It is modelled over `int`.
- **The service-list merge** of the Services section (`services.dfy`). It
  combines the built-in table of seven services with optional localised items.

`wrappers.dfy` holds the `Option` type used for "no plan" and for the
optional item list.

## Where the code departs from its documented intent (the model follows the code)

- Direction. The documented intent computes it from the pointer position relative
  to the interactive surface at click time. The code does two separate
  things:
  - the mouse-move handler stores `'left'` or `'right'` by comparing the
    pointer with half of the window width;
  - the click handler reads that stored value, which starts as `'right'`.

  `Navigator.PointerMove` and `Navigator.Nav` model these two steps.
- Stale completions. The documented intent says the navigator rejects a repeated
  completion with a stale plan. The code has no such check. `Complete`
  commits whatever plan it receives, as the callback does.

## Model

| member | source | states |
|---|---|---|
| `Carousel.Initial` | src/components/sections/Instructors.tsx:25-32 | The mounted state: main 0, side 1 (0 with a single member), lock off, cursor on the right, every index in range. |
| `Carousel.SideOf` | src/components/sections/Instructors.tsx:51-52 | The side is left exactly when `x` is strictly less than half the width, computed as a real division `width / 2`. |
| `Carousel.Navigator.constructor` | src/components/sections/Instructors.tsx:25-32 | A new navigator over `count ≥ 1` members is valid and in the state `Initial(count)`. |
| `Carousel.Navigator.PointerMove` | src/components/sections/Instructors.tsx:48-53 | Only the cursor side changes. It becomes left exactly when `2·x < width`. |
| `Carousel.Navigator.Nav` | src/components/sections/Instructors.tsx:59-68 | The new state is `AfterNav` of the old one. The returned plan is `NavPlan` of the old state, and both of its indices are in range. |
| `Carousel.Navigator.Complete` | src/components/sections/Instructors.tsx:69-76 | Main and side become the plan's indices and the lock is released. The buffers and the cursor side are unchanged. |
| `Carousel.Navigator.Settle` | src/components/sections/Instructors.tsx:144-149 | With the lock off, the buffers become `(secondary+1) mod n` and `(current−1+n) mod n`. With the lock on, nothing changes. |
| `Carousel.RejectedClickChangesNothing` | src/components/sections/Instructors.tsx:60 | A click while animating or with fewer than two members yields no plan and leaves the whole state unchanged, lock included. |
| `Carousel.AcceptedClickLocks` | src/components/sections/Instructors.tsx:60-61 | An accepted click sets only the lock. Its completion clears the lock and commits the plan's main and side indices. |
| `Carousel.PlanByDirection` | src/components/sections/Instructors.tsx:63-67 | Forward plans main := old side and side := old next buffer. Backward plans main := old previous buffer and side := old main. |
| `Carousel.MidpointGoesForward` | src/components/sections/Instructors.tsx:51-52 | A pointer exactly on the middle counts as the right half, so the click plans a forward step. |
| `Carousel.StepsKeepRange` | src/components/sections/Instructors.tsx:66-75 | Click, effect and completion with an in-range plan all keep the four indices in `[0, n)`. The plan a click makes is in range. |
| `Carousel.Rest` | src/components/sections/Instructors.tsx:144-149 | The rest state of member `c`: side = `(c+1) mod n`, buffers fresh, lock off. |
| `Carousel.InitialIsAtRest` | src/components/sections/Instructors.tsx:25-32 | The mounted state is the rest state of member 0, for every `n ≥ 1`. |
| `Carousel.ForwardFromRest` | src/components/sections/Instructors.tsx:59-75 | A settled forward step from the rest state of `c` is the rest state of `(c+1) mod n`. |
| `Carousel.BackwardFromRest` | src/components/sections/Instructors.tsx:59-75 | A settled backward step from the rest state of `c` is the rest state of `(c−1+n) mod n`. The old main member becomes the side member. |
| `Carousel.StepFromRest` | src/components/sections/Instructors.tsx:144-149 | One settled step in either direction keeps the rest invariant `secondary = (current+1) mod n`. |
| `Carousel.ForwardThenBackward` | src/components/sections/Instructors.tsx:66-67 | A settled forward step followed by a settled backward step restores the original main and side. |
| `Carousel.BackwardThenForward` | src/components/sections/Instructors.tsx:66-67 | A settled backward step followed by a settled forward step restores the original main and side. |
| `Carousel.StepsFromRest` | src/components/sections/Instructors.tsx:59-149 | After any sequence of settled clicks from rest, the carousel is at rest again. The main member is `(c + forward − backward) mod n`. |
| `Carousel.SingleMemberNeverMoves` | src/components/sections/Instructors.tsx:60 | With one member, any number of clicks leaves every index and the lock as they were. |
| `Carousel.FiveMemberScenarios` | src/components/sections/Instructors.tsx:59-149 | With 5 members from mount: forward gives main 1, side 2, buffers 3 and 0. Backward gives main 4, side 0, buffers 1 and 3. |
| `Carousel.TwoMemberRoundTrip` | src/components/sections/Instructors.tsx:59-149 | With 2 members, one forward step swaps the slots and a second one swaps them back. |
| `Carousel.ClickBeforeSettleSkipsAMember` | src/components/sections/Instructors.tsx:59-149 | A click accepted after the completion callback but before the buffer effect uses stale buffers. With 5 members, backward then such an early forward click ends on main 0 with side 2, so the rest invariant `secondary = (current+1) mod n` no longer holds. |
| `LocaleProxy.Proxy` | src/proxy.ts:7-29 | Every redirect goes under `/tr`. The path passes through exactly when it is not `/` and is `/tr`, `/en` or lies below one of them. |
| `LocaleProxy.DefaultLocaleIsSupported` | src/proxy.ts:4-5 | The default locale `tr` is one of the supported locales. |
| `LocaleProxy.RootRedirects` | src/proxy.ts:11-13 | `/` redirects to `/tr`. |
| `LocaleProxy.LocalisedPathsPass` | src/proxy.ts:16-18 | `/tr`, `/en` and every path starting with `/tr/` or `/en/` pass through. |
| `LocaleProxy.OtherPathsRedirect` | src/proxy.ts:23-25 | Any other path except `/` redirects to `/tr` followed by the path. |
| `LocaleProxy.PrefixIsNotALocale` | src/proxy.ts:17 | A locale must match a whole segment: `/trx` and `/english` are redirected. |
| `LocaleProxy.RedirectIsIdempotent` | src/proxy.ts:11-25 | For a path starting with `/`, requesting the redirect target again passes through. |
| `LocaleProxy.NoLeadingSlashRedirectsTwice` | src/proxy.ts:23-25 | Without a leading slash the redirect is not idempotent: `x` goes to `/trx`, which is redirected again. |
| `InstructorImage.StripLeadingSlashes` | src/lib/constants.ts:8 | The result is no longer than the input and never starts with `/`. |
| `InstructorImage.InstructorImageUrl` | src/lib/constants.ts:3-13 | An empty file name gives the placeholder. Any other file name gives the CDN instructor directory URL followed by the file name without its leading slashes. |
| `InstructorImage.StripRemovesOnlySlashes` | src/lib/constants.ts:8 | Only a run of `/` is removed from the front. The rest of the string is kept unchanged. |
| `InstructorImage.StripIsIdempotent` | src/lib/constants.ts:10 | Normalising an already normalised string changes nothing. |
| `InstructorImage.StripIgnoresLeadingSlashes` | src/lib/constants.ts:8 | Extra leading slashes do not change the normalised string. |
| `InstructorImage.EmptyGivesPlaceholder` | src/lib/constants.ts:4-6 | An empty file name gives `/placeholder-instructor.webp`. |
| `InstructorImage.NonEmptyGivesCdnUrl` | src/lib/constants.ts:8-12 | A non-empty file name gives the CDN instructor directory URL followed by the file name without its leading slashes. The second normalisation removes only the directory's own slash. |
| `InstructorImage.DirUrlIsTheInstructorDirectory` | src/lib/constants.ts:1 | The directory URL is `https://cdn.timerightproduction.org/images/instructor/`, with one slash between host and `images`. |
| `InstructorImage.LeadingSlashesAreIrrelevant` | src/lib/constants.ts:8 | `f`, `/f`, `///f` give the same URL for non-empty `f`. |
| `InstructorImage.SlashesOnlyGiveDirectory` | src/lib/constants.ts:4-12 | A file name made only of slashes is not empty. It gives the bare directory URL, not the placeholder. |
| `QuickSort.Below` | quicksort.js:7 | Keeps exactly the occurrences of the elements below the pivot, and is no longer than the input. |
| `QuickSort.AtLeast` | quicksort.js:8 | Keeps exactly the occurrences of the elements at or above the pivot, and is no longer than the input. |
| `QuickSort.PartitionKeepsElements` | quicksort.js:7-8 | The two parts together are a permutation of the elements after the pivot. |
| `QuickSort.Sort` | quicksort.js:1-11 | The result is sorted and is a permutation of the input, so its length is preserved. Termination holds because both parts are shorter than the input. |
| `QuickSort.ShortInputUnchanged` | quicksort.js:2-4 | An input of length ≤ 1 is returned unchanged. |
| `QuickSort.PivotSplits` | quicksort.js:6-10 | The result is the sorted smaller part, then the pivot, then the sorted larger part. Everything before the pivot is strictly smaller and everything after it is at least the pivot. |
| `QuickSort.SortIsTheSortedPermutation` | quicksort.js:1-11 | Any sorted permutation of the input equals the result. |
| `QuickSort.UsageExample` | quicksort.js:14-15 | `[34, 7, 23, 32, 5, 62]` sorts to `[5, 7, 23, 32, 34, 62]`. |
| `Services.ItemAt` | src/components/sections/Services.tsx:73 | An item exists exactly when items are given and the index is within them. If so, it is the item at that index. |
| `Services.Localise` | src/components/sections/Services.tsx:74-78 | `id` and `icon` are kept. Without an item the entry is unchanged. With one, `titleEn` is the item's title and `title` its description. |
| `Services.MergeServices` | src/components/sections/Services.tsx:72-79 | There are always 7 entries in table order, with `id` and `icon` from the table. Where an item exists, `titleEn` is its title and `title` its description. Otherwise both table texts are kept. |
| `Services.ServiceIdsAreOneToSeven` | src/components/sections/Services.tsx:11-54 | The table has 7 entries with ids 1..7 in order, pairwise distinct. |
| `Services.NoItemsKeepsTable` | src/components/sections/Services.tsx:72-79 | With no items, or an empty list, the merged list is the table itself. |
| `Services.ExtraItemsAreIgnored` | src/components/sections/Services.tsx:72-73 | Items past the seventh do not affect the result. |

## Left out

- Animation: the GSAP timelines, tweens, easing, slot positions and opacities
  of the carousel and the Services card arc are floating-point, DOM-measured
  library calls.
- Member records: only their count is modelled. Name, title, bio and image
  are only rendered.
- An empty member list. The component then renders nothing
  (Instructors.tsx:169), so no click can reach it. The buffer indices it
  computes on mount would not be numbers. `Navigator` is therefore built only
  for `n ≥ 1`.
- Effect scheduling. React runs the buffer effect after the render that
  follows a completion. The model exposes it as a separate `Settle` call and
  proves its claims for clicks that are each completed and settled (`Step`).
  A click that arrives after the completion callback but before the effect
  has re-rendered is accepted by the component and by `Navigator` alike, and
  it plans from the stale buffers. After it the rest invariant
  `secondary = (current+1) mod n` can fail: `ClickBeforeSettleSkipsAMember`
  shows a five-member run that ends with member 2 beside member 0. The
  rest-state lemmas (`StepsFromRest` and the ones it builds on) therefore
  hold only for clicks that each wait for the effect.
- `Carousel.SideOf`: the pointer abscissa and window width are integers, not floating-point pixels.
- `Carousel.Navigator.PointerMove`: pointer coordinates and the window width
  are modelled as integers, with `x < width/2` written `2·x < width`. The
  source uses floating-point pixels.
- The proxy's response objects (`NextResponse`, `URL`) and the `config.matcher`
  pattern belong to the web framework. Only the decision on the path is
  modelled.
- `InstructorImage.InstructorImageUrl`: takes a string, so the `typeof` check and `null` or `undefined` file names are not modelled.
- `InstructorImage.EmptyGivesPlaceholder`: the `typeof` check and `null` or
  `undefined` file names are not modelled. The model takes a string, so only
  the empty string takes the placeholder path.
- `QuickSort.Sort`: JavaScript numbers are modelled as unbounded integers.
  NaN and fractional values are not modelled. The console output of the
  usage example is stated as a lemma.
- Services: the scroll-driven card animation and its ticker are not
  modelled. Each item is assumed to be an object, as the type says, so an
  item is present exactly when its index is within the list.
- The rest of the site is not part of this model: layout, header, scroll
  plumbing, message loading and static data.
