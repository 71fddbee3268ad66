# Wedding site core, modelled in Dafny

This project models the logic of a statically exported wedding web site
(Next.js/TypeScript) that sits behind its pages. It covers three parts:

- **RSVP intake.** The field validator fills an error map field by field and
  builds the normalised record on success. The RSVP page keeps a guest list of
  at most three names, builds a payload, and moves its status through the
  submit outcomes. The server-side submit action maps the payload to the same
  stored row and classifies the store's answer.
  - The hosted store is an input. It is either "no client", an error with a
    message, a clean insert, or a thrown value.
  - As in the code, the page never calls the validator. Neither submit path
    stores `guest_names`.
- **Path normalisers and content defaults.** Legacy image paths such as
  `../assets/images/x.jpg` are rewritten into the sub-folders of
  `/public/images`. This happens on the schedule page, the schedule list, the
  gallery grid and lightbox, the story timeline, and the travel,
  accommodations and gallery pages. Besides that:
  - the content loaders fill in defaults (`??`, length checks, fallback records);
  - the venue list is sorted by a fixed rank;
  - the sitemap lists each route once, in order of first appearance.
- **Small state machines.** These are the FAQ accordion's open set, the
  password gate with its session flag, and the lightbox's wrap-around
  navigation.

One module per source file, plus four shared modules:

- `Wrappers`: `Option`.
- `Text`: JavaScript `trim`, ASCII case folding, `join`, and the decimal
  rendering of numbers.
- `ImagePaths`: the three prefix regular expressions and the filename classes.
- `Store`: the payload and row shapes, and the client-configured check.

Each regular expression is written the way its matcher proceeds. It is then
proved equal to the set of literal prefixes or names it denotes
(`StripLegacySpec`, `StripRootedSpec`, `NamedImageIff`, `NumberedImageIff`).
The validator and the state-changing handlers are methods. They are proved
against specification functions (`ErrorFor`, `SuccessRecord`, `SubmitStatus`,
`Toggled`).

The gallery page hands the grid only `photos`. The grid also maps over
`engagementPhotos`, which is then undefined. `GalleryGrid.Grid` takes both
lists; what the page does when that list is missing is not modelled.

## Model

| member | source | states |
|---|---|---|
| `Validation.FullNameError` | lib/validation.ts:7-12 | the trimmed name passes iff its length is 2..100; length 0 gives the required message, 1 the minimum-length message, over 100 the maximum-length message |
| `Validation.EmailError` | lib/validation.ts:84-92 | an empty email is never an error; a non-empty one fails iff the email predicate rejects it, always with the invalid-email message |
| `Validation.AttendingError` | lib/validation.ts:94-101 | the untrimmed value passes iff it is exactly `yes` or `no`; a missing value is `''` and fails |
| `Validation.NotesError` | lib/validation.ts:103-112 | empty notes pass; notes fail iff longer than 1000, with the notes message |
| `Validation.GuestError` | lib/validation.ts:119-136 | a guest slot passes iff its trimmed name has length 2..100; empty gives 'Guest name is required', 1 the minimum message, over 100 the maximum message |
| `Validation.ErrorFor` | lib/validation.ts:66-137 | each key passes under its own rule: name length 2..100, email empty or accepted, attending `yes`/`no`, notes at most 1000, a guest slot at or past the count or with length 2..100 |
| `Validation.SuccessRecord` | lib/validation.ts:144-153 | the trimmed name, untrimmed attending, email and notes absent iff empty after trimming, and guest names absent iff there are no slots, else exactly one trimmed name per slot in order |
| `Validation.CheckNamedFields` | lib/validation.ts:66-112 | the map holds exactly the non-guest keys whose rule fails, each with that rule's message |
| `Validation.CheckGuests` | lib/validation.ts:115-137 | after the loop the map holds the named-field failures plus exactly the failing slots below the count; when every slot passes, the kept names are all slots' trimmed names, in order |
| `Validation.SuccessNames` | lib/validation.ts:144-153 | when no rule fails, the names kept slot by slot are the record's guest names, and there are none without slots |
| `Validation.CollectedAll` | lib/validation.ts:139-142 | once every slot is examined, the map's keys are exactly the failing keys and it is empty iff no rule fails |
| `Validation.ValidateRsvpForm` | lib/validation.ts:62-154 | not fail-fast: the error map holds exactly one entry per failing field or slot below the guest count, with its message; failure iff some rule fails; on success the record has the trimmed name, absent email and notes when empty, and the guest names in slot order (exactly guestCount of them, none when guestCount is 0) |
| `Validation.SlotsIndependent` | lib/validation.ts:116-137 | a slot's verdict does not depend on any other slot's text |
| `Validation.OneBlankSlot` | lib/validation.ts:116-136 | with slots `Al` and blank, only `guest_1` fails ('Guest name is required'); slots at or past the count are never examined |
| `Text.TrimSpec` | lib/validation.ts:66 | `trim` returns the middle of the input with only whitespace cut from both ends, and its result starts and ends with non-whitespace |
| `Text.TrimEmptyIff` | lib/validation.ts:66 | the trimmed value is empty iff the input is all whitespace |
| `Text.TrimIdempotent` | lib/validation.ts:66 | trimming twice is trimming once |
| `Text.NatToStringRoundTrip` | components/media/GalleryGrid.tsx:41 | reading back the decimal rendering of a number gives that number |
| `Text.NatToStringInjective` | components/media/GalleryGrid.tsx:41 | different numbers render differently |
| `Text.PresentValuesEmptyIff` | components/data/ScheduleList.tsx:58 | `filter(Boolean)` leaves nothing iff no value is present |
| `Text.JoinEmptyIff` | components/data/ScheduleList.tsx:58 | joining non-empty parts is empty iff there are no parts |
| `Store.RowIgnoresGuestNames` | app/server-actions/rsvp.ts:16-23 | payloads differing only in `guest_names` yield the same stored row |
| `Store.RowOf` | app/server-actions/rsvp.ts:16-22 | the row carries the payload's name, email, attending flag and notes unchanged, the guest count or 0 when absent, and the submission time |
| `RsvpPage.AddGuest` | app/rsvp/page.tsx:19-23 | below three guests one empty name is appended and the rest kept; at three nothing changes; the list never exceeds three |
| `RsvpPage.RemoveGuest` | app/rsvp/page.tsx:25-27 | for an index in the list, one fewer slot, earlier slots kept and later slots shifted down by one; any other index changes nothing |
| `RsvpPage.RemoveGuestSpec` | app/rsvp/page.tsx:25-27 | removing slot i drops exactly that element and keeps the others in order; an index outside the list changes nothing |
| `RsvpPage.UpdateGuestName` | app/rsvp/page.tsx:29-33 | only slot i changes, to the new name, and the length is kept |
| `RsvpPage.AddGuestShownIff` | app/rsvp/page.tsx:163-174 | the "Add guest" button is shown exactly when adding would change the list |
| `RsvpPage.TotalAttending` | app/rsvp/page.tsx:35-37 | the figure is the slot count plus one, so 1..4 while the list holds at most three |
| `RsvpPage.TotalLine` | app/rsvp/page.tsx:178-180 | the figure shown reads back as the slot count plus one, the same figure as the payload's `guests`; the noun is `person` iff there are no slots |
| `RsvpPage.TrimmedOrAbsent` | app/rsvp/page.tsx:46 | a trimmed value that is empty becomes absent; otherwise it is the trimmed value |
| `RsvpPage.BuildPayload` | app/rsvp/page.tsx:44-50 | the name is trimmed; email and notes are trimmed and absent when empty; attending is true iff the radio value, defaulting to `yes`, is `yes`; guests = 1 + the slot count; no guest names are sent |
| `RsvpPage.SubmitStatus` | app/rsvp/page.tsx:52-88 | ok iff a name, a client and a clean insert, and then the message is 'RSVP submitted. Thank you!' |
| `RsvpPage.SubmitStatusCases` | app/rsvp/page.tsx:52-88 | success iff a name, a client and a clean insert; otherwise 'Full name is required.', the not-configured message, the store's message verbatim, or the thrown Error's message / 'Unknown error' |
| `RsvpPage.PageSkipsValidation` | app/rsvp/page.tsx:44-55 | a one-letter name that the validator rejects is sent by the page and can succeed |
| `RsvpPage.Page.constructor` | app/rsvp/page.tsx:10-17 | no status, not submitting, no guests, an empty form |
| `RsvpPage.Page.SubmitDisabled` | app/rsvp/page.tsx:196 | the button is disabled iff submitting or the client values are missing |
| `RsvpPage.Page.AddGuestSlot` | app/rsvp/page.tsx:19-23 | the guest list becomes `AddGuest` of the old list and stays within three; nothing else changes |
| `RsvpPage.Page.RemoveGuestSlot` | app/rsvp/page.tsx:25-27 | the guest list becomes `RemoveGuest` of the old list; nothing else changes |
| `RsvpPage.Page.UpdateGuestSlot` | app/rsvp/page.tsx:29-33 | the guest list becomes `UpdateGuestName` of the old list; nothing else changes |
| `RsvpPage.Page.Submit` | app/rsvp/page.tsx:39-89 | the status is `SubmitStatus` of the payload; a row is handed to the store only with a name and a client; `submitting` is false afterwards except on the empty-name return, which leaves it alone; success resets the form and empties the guest list, any failure keeps both |
| `ServerAction.SubmitRsvp` | app/server-actions/rsvp.ts:9-33 | ok iff a client exists and the insert was clean; an error is present iff not ok; a row is inserted iff a client exists, and it is the shared row; each failure carries its message ('…not set. Skipping submission.', the store's, the thrown one) |
| `ServerAction.GuestNamesIgnored` | app/server-actions/rsvp.ts:16-23 | the action's result and inserted row ignore `guest_names` |
| `ServerAction.AgreesWithPage` | app/server-actions/rsvp.ts:25-32 | with a name and a client, the action and the page insert the same row, agree on success and give the same failure message |
| `ServerAction.BothRefuseUnconfigured` | app/server-actions/rsvp.ts:10-13 | without a client neither path inserts, and each reports its own message |
| `ImagePaths.LeadingDots` | app/schedule/page.tsx:54 | the count of leading dots, at most two, with a non-dot after fewer than two |
| `ImagePaths.StripLegacySpec` | app/schedule/page.tsx:54 | `^\.{0,2}\/?assets\/images\/` removes exactly the one literal prefix (0-2 dots, optional slash) the input starts with, and nothing otherwise |
| `ImagePaths.StripRootedSpec` | app/travel/page.tsx:56 | `^\.?\.?\/assets\/images\/` removes exactly `/`, `./` or `../` plus `assets/images/`, and nothing otherwise |
| `ImagePaths.StripLegacyKeeps` | app/schedule/page.tsx:54 | a path starting with anything but a dot, a slash or `a` is left unchanged |
| `ImagePaths.NamedImageIff` | app/schedule/page.tsx:56 | the first-dot test equals the regular expression `^(words)\.(jpe?g\|png\|webp\|avif)$/i` |
| `ImagePaths.NumberedImageIff` | app/schedule/page.tsx:58-60 | the first-dash, first-dot test equals `^(words)-\d+\.(ext)$/i` |
| `SchedulePage.NormalizeImage` | app/schedule/page.tsx:52-66 | absent iff the image is absent or empty after stripping and trimming; otherwise the filename, kept whole, behind its folder |
| `SchedulePage.FolderSpec` | app/schedule/page.tsx:56-64 | `events/` iff an event name, else `story/` iff `story-<digits>`, else `gallery/` iff `gallery-<digits>`, else the images root |
| `SchedulePage.NormalizeEvent` | app/schedule/page.tsx:67 | only the image changes; every other field is kept |
| `SchedulePage.PageEvents` | app/schedule/page.tsx:45-68 | missing events give none; otherwise count and order are kept, each event normalised |
| `SchedulePage.Heading` | app/schedule/page.tsx:74 | `title ?? 'Schedule'`: a present title is shown even when empty |
| `SchedulePage.ListShowsFolder` | components/data/ScheduleList.tsx:28 | a normalised events/story/gallery image reaches the list unchanged and is shown at `/images/<folder>/<file>` |
| `ScheduleList.ImageSrc` | components/data/ScheduleList.tsx:28 | a present image gives `/images/` + the prefix-stripped name, an absent or empty one nothing |
| `ScheduleList.Key` | components/data/ScheduleList.tsx:31 | the id when present (even empty), else `${title}-${time}` with `undefined` for a missing part |
| `ScheduleList.Alt` | components/data/ScheduleList.tsx:44 | `alt ?? title ?? 'Event image'`: a present alt wins even when empty, then a present title |
| `ScheduleList.BadgeSpec` | components/data/ScheduleList.tsx:56-64 | a badge is non-empty iff one of its values is present; both give `a • b`, one gives just that one |
| `ScheduleList.DayTime` | components/data/ScheduleList.tsx:56-60 | shown iff a day or a time is present; both give `day • time`, one gives just that one |
| `ScheduleList.DateDress` | components/data/ScheduleList.tsx:62-66 | shown iff a date or a dress code is present; both give `date • dress`, one gives just that one |
| `ScheduleList.LocationLine` | components/data/ScheduleList.tsx:67-71 | shown iff a location is present; it starts with the pin and the location and ends with `• address` exactly when an address is present |
| `ScheduleList.CardOf` | components/data/ScheduleList.tsx:40-88 | image with its alt iff an image; badges never blank; description, note and map link iff present |
| `ScheduleList.Cards` | components/data/ScheduleList.tsx:27 | one card per event, in order |
| `GalleryGrid.Normalize` | components/media/GalleryGrid.tsx:14-21 | always starts with `/images/`; the stripped, trimmed filename follows, behind `gallery/` iff it matches the photo pattern |
| `GalleryGrid.Placed` | components/media/GalleryGrid.tsx:17-20 | a filename goes under `/images/`, behind `gallery/` exactly when it matches the photo pattern |
| `GalleryGrid.NormalizeFolderIff` | components/media/GalleryGrid.tsx:17-18 | `gallery/` is added iff the name is `gallery-<digits>` or `engagement-<digits>` with an image extension |
| `GalleryGrid.LegacyAgrees` | components/media/GalleryGrid.tsx:16 | every legacy spelling of a path normalises like the bare name |
| `GalleryGrid.FolderPathPassesThrough` | components/media/GalleryGrid.tsx:14-20 | `gallery/<name>` passes through to `/images/gallery/<name>`, the same as the bare name |
| `GalleryGrid.FirstPresent` | components/media/GalleryGrid.tsx:41 | `a \|\| b \|\| default` on optional strings |
| `GalleryGrid.EngagementTile` | components/media/GalleryGrid.tsx:39-46 | normalised source; alt is the caption, else the alt text, else `Engagement photo <idx+1> of Caroline and Zach`; size defaulting to 1200×1600 when falsy, priority iff among the first three |
| `GalleryGrid.GalleryTile` | components/media/GalleryGrid.tsx:57-67 | normalised source; alt is the caption, else the alt text, else `Wedding photo <idx+1> of Caroline and Zach`; size as above; priority iff among the first six; a heading caption ‖ alt ‖ `Photo n` |
| `GalleryGrid.Grid` | components/media/GalleryGrid.tsx:30-72 | one tile per photo in each grid, in order |
| `GalleryGrid.PriorityPrefix` | components/media/GalleryGrid.tsx:45 | the eagerly loaded tiles form a prefix of at most three, resp. six |
| `GalleryGrid.NameStartsPlain` | components/media/GalleryGrid.tsx:17 | a name matching the photo pattern carries no legacy prefix |
| `PhotoLightbox.PrevIndex` | components/media/PhotoLightbox.tsx:41 | within the list, previous stays in range and is `(i - 1) mod n` |
| `PhotoLightbox.NextIndex` | components/media/PhotoLightbox.tsx:45 | within the list, next stays in range and is `(i + 1) mod n` |
| `PhotoLightbox.PrevNextInverse` | components/media/PhotoLightbox.tsx:60-68 | previous and next undo each other |
| `PhotoLightbox.NextTimesAdvance` | components/media/PhotoLightbox.tsx:66 | before the end, k presses of next move k places |
| `PhotoLightbox.NextTimesAdd` | components/media/PhotoLightbox.tsx:66 | presses of next compose additively |
| `PhotoLightbox.FullRound` | components/media/PhotoLightbox.tsx:66 | n presses of next return to the starting photo |
| `PhotoLightbox.OnKey` | components/media/PhotoLightbox.tsx:33-48 | keys do nothing while closed; when open, Escape and only Escape closes, ArrowLeft goes to the previous photo, ArrowRight to the next (both wrapping), any other key does nothing; navigation from a shown photo stays in range |
| `PhotoLightbox.Render` | components/media/PhotoLightbox.tsx:70-158 | nothing iff closed or no photo at the index; otherwise the normalised photo with alt caption ‖ alt ‖ `Photo <i+1>`, width and height defaulting to 1200×1600 when falsy, counter `i+1 of n`, a caption iff caption or alt and then its text is caption ‖ alt, arrows iff n > 1 |
| `PhotoLightbox.NavigationStaysVisible` | components/media/PhotoLightbox.tsx:36-48 | an arrow key from a shown photo lands on a shown photo |
| `Timeline.ImageSrcSpec` | components/data/Timeline.tsx:17-19 | a leading `assets/images/` is removed once; any other path, `../assets/images/` included, is kept; empty gives no image |
| `Timeline.ImageSrc` | components/data/Timeline.tsx:17-19 | no image iff the path is empty or exactly `assets/images/`; any image lies under `/images/` |
| `Timeline.Alt` | components/data/Timeline.tsx:32 | `alt ?? title ?? 'Timeline image'`: a present alt wins even when empty, then a present title |
| `Timeline.BarePrefixAgrees` | components/data/Timeline.tsx:18 | `assets/images/x` and `x` give the same image; a doubled prefix keeps its second copy |
| `Timeline.EntryOf` | components/data/Timeline.tsx:22-44 | date, title and text shown iff present; image with alt `alt ?? title ?? 'Timeline image'` iff a path |
| `Timeline.Entries` | components/data/Timeline.tsx:15 | one entry per item, in order |
| `TravelContent.StripImage` | app/travel/page.tsx:56 | an absent or empty image is kept; a present one loses a rooted legacy prefix |
| `TravelContent.StripImageSpellings` | app/travel/page.tsx:56 | `../`, `./` and `/` spellings are removed; bare `assets/images/x` is unchanged |
| `TravelContent.StripHotel` | app/travel/page.tsx:56 | only the hotel's image changes |
| `TravelContent.StripAirport` | app/travel/page.tsx:58-61 | only the airport's image changes |
| `TravelContent.StripHotels` | app/travel/page.tsx:56 | count and order kept, each hotel stripped |
| `TravelContent.StripAirports` | app/travel/page.tsx:58-61 | count and order kept, each airport stripped |
| `TravelContent.Rank` | app/travel/page.tsx:114-117 | rank 0 iff the chapel, rank 1 iff the club, 99 for every other venue, an unnamed one included |
| `TravelContent.OfRankAppend` | app/travel/page.tsx:113-118 | selecting venues of one rank distributes over concatenation |
| `TravelContent.InsertMultiset` | app/travel/page.tsx:113-118 | insertion keeps every venue and adds one |
| `TravelContent.InsertSorted` | app/travel/page.tsx:113-118 | insertion into a rank-sorted list keeps it sorted |
| `TravelContent.InsertBound` | app/travel/page.tsx:113-118 | an insertion below a higher-ranked last venue stays below it |
| `TravelContent.InsertOfRank` | app/travel/page.tsx:113-118 | insertion places the venue after those of its own rank |
| `TravelContent.SortBySpec` | app/travel/page.tsx:113-118 | a stable sort by any ranking is sorted, a permutation of its input, and keeps the order within each rank |
| `TravelContent.SortVenues` | app/travel/page.tsx:113-118 | the venues come out sorted by rank and as a permutation of the input |
| `TravelContent.SortVenuesSpec` | app/travel/page.tsx:113-118 | the venue order is sorted by rank (the chapel, the club, then the rest at 99), a permutation of the input, and stable within a rank |
| `TravelPage.TravelFallbacks` | app/travel/page.tsx:52-65 | airports from the site list when defined (even empty), else the venues list, else none; rideshare and weather likewise; intro only from the site file; title `Travel` |
| `TravelPage.LoadTravelData` | app/travel/page.tsx:47-66 | title `Travel`; intro from the site file; the venues list or none; each hotel kept with its image stripped, none without the file; the chosen airport list, each stripped |
| `TravelPage.UnreadableFiles` | app/travel/page.tsx:39-56 | unreadable venue and hotel files give no venues and no hotels |
| `TravelPage.HotelsPreserved` | app/travel/page.tsx:56 | hotels keep count, order and every field but the stripped image |
| `TravelPage.VenueOrder` | app/travel/page.tsx:113-118 | the venue cards are sorted by rank and are a permutation of the loaded venues |
| `TravelPage.SectionsShown` | app/travel/page.tsx:91-127 | the venues and hotels sections show iff their file lists at least one entry; the airports section iff the list chosen site-first has one |
| `AccommodationsPage.LoadAccommodationsData` | app/accommodations/page.tsx:37-56 | a missing hotels list gives none, a present one gives each hotel with its image stripped, in order; intro, airports, rideshare and weather come only from the venues file's travel block, airports stripped, none without it |
| `AccommodationsPage.ListsPreserved` | app/accommodations/page.tsx:43-51 | hotels and airports keep count, order and other fields, and each image is the rooted-prefix strip of the original (an absent or empty image kept) |
| `GalleryPage.PhotoSrc` | app/gallery/page.tsx:48 | a missing or empty source becomes `''`; a present one loses its legacy prefix |
| `GalleryPage.CleanPhoto` | app/gallery/page.tsx:46-49 | only the source changes |
| `GalleryPage.SelectedPhotos` | app/gallery/page.tsx:46-51 | missing photos give none; otherwise all photos, in order, each cleaned |
| `GalleryPage.Heading` | app/gallery/page.tsx:56 | `title ?? 'Gallery'`: a present title is shown even when empty |
| `GalleryPage.CleanThenNormalize` | app/gallery/page.tsx:48 | cleaning first does not change the path the grid builds for a legacy photo |
| `Site.LoadSiteData` | lib/site.ts:27-44 | nav is the parsed nav if non-empty, else the default, and never empty; title defaults to 'Caroline & Zach', date and city to 'TBA', footer to '© year Caroline & Zach'; subtitle and names pass through; a failure gives the default nav, 'Wedding Site' and '© year' |
| `Site.DefaultNavShape` | lib/site.ts:17-25 | the default nav has six distinct rooted links ending with RSVP |
| `Site.FooterStartsWithYear` | lib/site.ts:36 | both default footers begin with '© ' and the year |
| `Sitemap.DedupSpec` | app/sitemap.xml/route.ts:36 | `[...new Set(s)]` has no repeats and the same values as `s` |
| `Sitemap.Dedup` | app/sitemap.xml/route.ts:36 | `[...new Set(s)]` is no longer than `s` and holds only values of `s` |
| `Sitemap.DedupNoRepeats` | app/sitemap.xml/route.ts:36 | a list without repeats is kept as it is |
| `Sitemap.DedupExtends` | app/sitemap.xml/route.ts:36 | appending input only appends output: first occurrences keep their places |
| `Sitemap.Routes` | app/sitemap.xml/route.ts:19-36 | the eight fixed routes come first, in order, and every route is fixed or extra |
| `Sitemap.RoutesSpec` | app/sitemap.xml/route.ts:19-36 | the fixed eight routes come first in order, then new extras; each route once; no extras gives exactly the fixed routes |
| `Sitemap.Entries` | app/sitemap.xml/route.ts:36-39 | one `<url><loc>…</loc></url>` per route, in order |
| `Sitemap.BaseUrl` | app/sitemap.xml/route.ts:16 | the configured site URL when non-empty, else `http://localhost:3000` |
| `Sitemap.Get` | app/sitemap.xml/route.ts:15-50 | status 200, XML content type, body = declaration and 0.9 `urlset`, entries joined by newlines, closing tag |
| `Sitemap.NoExtras` | app/sitemap.xml/route.ts:33-34 | an unreadable site file gives exactly the fixed routes |
| `FaqsPage.ToFaq` | app/faqs/page.tsx:30 | `{q, a}` becomes `{question, answer}` with `''` for a missing part |
| `FaqsPage.Faqs` | app/faqs/page.tsx:30 | missing faqs give none; otherwise count and order kept |
| `FaqsPage.Heading` | app/faqs/page.tsx:36 | `title ?? 'FAQs'`: a present title is shown even when empty |
| `FaqAccordion.Toggled` | components/data/FAQAccordion.tsx:10-17 | the toggled index flips membership; every other index keeps it |
| `FaqAccordion.ToggleTwice` | components/data/FAQAccordion.tsx:10-17 | toggling one index twice restores the set |
| `FaqAccordion.TogglesCommute` | components/data/FAQAccordion.tsx:10-17 | toggles of two indices commute |
| `FaqAccordion.Accordion.constructor` | components/data/FAQAccordion.tsx:8 | initially only entry 0 is open |
| `FaqAccordion.Accordion.Toggle` | components/data/FAQAccordion.tsx:10-17 | the open set becomes the toggled copy of the old one |
| `FaqAccordion.Accordion.Panels` | components/data/FAQAccordion.tsx:27-56 | an entry is expanded and shows its answer iff its index is open |
| `PasswordGate.Gate.constructor` | components/PasswordProtection.tsx:12-15 | loading, locked, empty password and error |
| `PasswordGate.Gate.MountCheck` | components/PasswordProtection.tsx:17-24 | unlocks iff the session flag is 'true' (never relocks); loading ends |
| `PasswordGate.Gate.Type` | components/PasswordProtection.tsx:62 | only the password changes |
| `PasswordGate.Gate.Submit` | components/PasswordProtection.tsx:26-37 | an exact, untrimmed match unlocks, clears the error and sets the flag; a mismatch shows the error, clears the password and keeps the lock |
| `PasswordGate.Gate.SubmitDisabled` | components/PasswordProtection.tsx:75 | disabled iff the password is all whitespace |
| `PasswordGate.Gate.Render` | components/PasswordProtection.tsx:39-86 | content iff not loading and unlocked; loading screen iff loading; otherwise the form with the error |

## Left out

- String lengths count characters. The source counts UTF-16 code units, which differ only outside the Basic Multilingual Plane.
- The email check is a parameter `isEmail`. The library's email pattern is not modelled.
- The attending error message is the library's default enumeration message. The schema's `required_error` applies only to an undefined value, which the validator never passes.
- Creating the store client and the network insert are not modelled. A client exists iff both environment values are present and non-empty. The insert's answer is an input.
- File reads and JSON parsing are not modelled. The travel, accommodations and sitemap loaders and `loadSiteData` catch failures: they receive the parsed file, or `None` when it cannot be read or parsed, and a file that parses to `null` counts as unreadable. The schedule, gallery and FAQs pages read their files without a `try`, so an unreadable or malformed file throws there. For those pages the model starts from the parsed record, and the throw is not modelled.
- The clock is not modelled. The submission timestamp and the footer year are parameters.
- `new URL(route, base)` in the sitemap is a function parameter.
- The gallery page's `shuffle` is not modelled. It depends on `Math.random` and is never called.
- The hotel star rating is copied through and never computed, because it is floating-point arithmetic.
- Keyboard listener registration, body scroll locking, haptic feedback and focus handling are browser side effects. They are not modelled. Only the key-to-action mapping is.
- Submission is one sequential step. The asynchronous insert and React's batching of state updates are not modelled.
- RsvpPage.UpdateGuestName: requires an index inside the list, as the page only calls it for rendered slots. Writing past the end of a JavaScript array, which leaves holes, is not modelled.
- PhotoLightbox.PrevIndex: indices are integers. Fractional or NaN indices are not modelled.
- GalleryGrid.OrDefault: sizes are optional integers. `NaN` is not modelled.
- The grid's handling of a missing `engagementPhotos` list is not modelled. The gallery page passes none, and at run time the grid then maps over an undefined value.
- Timeline item text, a React node in the source, is an optional string.
- Layout, styling and the remaining presentational components are outside the model.
