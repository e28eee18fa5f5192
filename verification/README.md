# HavenOS core, modelled in Dafny

HavenOS (RescueOS) is a web app for animal rescues: a public directory of
rescues and their adoptable animals, favourites and shareable shortlists,
adoption inquiries with notification emails, saved-search alerts, rescue
onboarding and signup, team invitations, and a payment webhook that keeps a
rescue's plan in step with its subscription. Almost all of it is database
CRUD. This project models the logic that sits between the requests and the
store, and proves what that logic promises:

- the string helpers: slugs, the email-format check and reply-to fallback,
  tag and boolean form parsing, the pet story, the inquiry email templates,
  link building and storage paths;
- the list helpers: the favourites toggle, id normalisation with
  de-duplication and the 50-id cap, thumbnail choice, per-rescue counts,
  the sample page's options and filters, and the pagination window;
- the input rules: the Zod schemas as predicates with their normalisers,
  saved-search defaulting, the operator allow-list, and the cleanup
  endpoint's token, dry-run flag and cutoff;
- the state changes over abstract tables: invitation acceptance,
  cancellation and listing, member role changes, shortlist creation and
  revocation, billing updates from webhook events, profile creation, and
  the bounded slug-collision retry of onboarding and signup.

The store is a set of immutable values: a sequence of rows, or a map keyed
by the unique column. Every answer the store, the mail service, the payment
service or the auth service could give is a parameter, and so are the
clock (integer milliseconds) and the random UUIDs and bytes. A unique
violation (Postgres code 23505) is derived from the key already being in the
table; any other error is an oracle `fault(i)` for attempt `i`. JavaScript
values read from request bodies are the `Js.Json` datatype, with `String(v)`,
truthiness, `??` and optional chaining written out. There is one module per
source file, except `Validation`, which covers the three schema files under
`src/lib/validation` (animal.ts, inquiry.ts, team.ts), plus the shared
modules `Wrappers`, `Strings`, `Js`, `Seqs`, `Sorting`, `Rows` and `Retry`.

Things the proofs brought out about the code:

- `buildSlug` is idempotent, and every slug it builds matches
  `^[a-z0-9-]+$`. So the onboarding schema's pattern rule can never fail;
  only the two-character minimum can (`Onboarding.CandidateSlugRule`). For
  the same reason signup's `slugBase || 'rescue'` fallback never applies
  (`Signup.SlugBaseShape`).
- `extractStoragePath(prefix + marker + p) == p` does not hold for every
  prefix that is free of the marker. The marker `/object/public/<bucket>/`
  can overlap the end of the prefix. The proved round trip therefore asks
  that no occurrence of the marker start inside the prefix
  (`Storage.ExtractRoundTrip`). `Storage.PrefixWithoutMarkerIsNotEnough`
  exhibits the gap.
- Toggling a favourite twice restores the list only when the id was
  absent. A present id comes back at the end of the list
  (`Favorites.ToggleTwiceMovesToEnd`).
- First sign-in (`??`) and signup (`||`) disagree on the display name for
  an address with an empty local part (`Signup.FallbacksDisagreeOnEmptyLocalPart`).
- `acceptInvitation` does not look at `canceled_at`, so a cancelled
  invitation can still be accepted (`Team.CanceledInviteAccepted`).
- An inquiry note of one space passes validation (`Validation.BlankNoteAccepted`).
- An empty `x-admin-token` header shadows a correct `token` query
  parameter (`Cleanup.HeaderTakesPrecedence`).
- The story starts with `name + " is a "` only when the name does not
  start with whitespace, because the intro is trimmed
  (`Story.StoryStartsWithName`).

## Model

| member | source | states |
|---|---|---|
| Slug.SlugifySimplified | src/lib/utils/slug.ts:1-7 | after the class replacement and the edge strip, collapsing dash runs and trimming change nothing |
| Slug.LowerHasSlugChar | src/lib/utils/slug.ts:3-4 | after lower-casing some character is in [a-z0-9] exactly when the input holds an ASCII letter or digit |
| Slug.SlugifyShape | src/lib/utils/slug.ts:1-7 | `slugify` yields "" or a well-formed slug (only [a-z0-9-], no dash at either end, no "--"), and "" exactly when the input has no ASCII letter or digit |
| Slug.RescueIsSlug | src/lib/utils/slug.ts:11 | the fallback "rescue" is itself a well-formed slug |
| Slug.BuildSlugIsSlug | src/lib/utils/slug.ts:9-12 | every `buildSlug` result is non-empty, uses only [a-z0-9-], has no dash at either end and no "--", and so matches `^[a-z0-9-]+$` |
| Slug.BuildSlugFallback | src/lib/utils/slug.ts:9-12 | the result is "rescue" when the input has no ASCII letter or digit, and the non-empty cleaned text otherwise |
| Slug.ReplaceRunsFixpoint | src/lib/utils/slug.ts:4 | the run replacement leaves unchanged a text of [a-z0-9-] without "--" |
| Slug.BuildSlugOfSlug | src/lib/utils/slug.ts:1-12 | a well-formed slug is a fixed point of `buildSlug` |
| Slug.BuildSlugIdempotent | src/lib/utils/slug.ts:1-12 | `buildSlug(buildSlug(s)) == buildSlug(s)` for every s |
| Slug.ReplaceRunsFromWord | src/lib/utils/slug.ts:4 | from a word start, the replacement is the [a-z0-9] words joined by single dashes plus one dash when the text ends outside a word |
| Slug.ReplaceRunsIsWords | src/lib/utils/slug.ts:4 | for text holding a word, the replacement is an optional leading dash, the words joined by dashes, and an optional trailing dash |
| Slug.StripReplaceRuns | src/lib/utils/slug.ts:4-5 | stripping edge dashes from the replacement leaves exactly the words joined by dashes |
| Slug.SlugifyIsJoinedWords | src/lib/utils/slug.ts:1-7 | reference definition: `slugify(s)` is the [a-z0-9] words of the lower-cased text joined by single dashes |
| Email.IsValidEmail | src/lib/utils/email.ts:3-6 | null, undefined and "" are rejected |
| Email.AtIsFirst | src/lib/utils/email.ts:5 | an '@' preceded only by characters of [^@\s] is the first '@' of the text |
| Email.IsValidEmailIff | src/lib/utils/email.ts:3-6 | the check holds exactly for `L@D` with L non-empty, neither part holding '@' or whitespace, and D holding a '.' with text on both sides |
| Email.ValidHasOneAt | src/lib/utils/email.ts:5 | a valid address holds exactly one '@' |
| Email.SupportEmailValid | src/lib/utils/email.ts:1 | the support address passes the check |
| Email.ReplyToForRescue | src/lib/utils/email.ts:8-10 | the contact when it is valid, the support address otherwise, and in both cases a valid address |
| Email.CanReplyByEmail | src/lib/utils/email.ts:12 | holds exactly for a present contact of the pattern's shape, i.e. exactly when `isValidEmail` holds |
| Form.ParseTagList | src/lib/utils/form.ts:1-7 | a non-text value gives []; every returned tag is non-empty, has no whitespace at either end and holds no ',' |
| Form.CleanTrimmed | src/lib/utils/form.ts:4-6 | a comma-free piece that does not trim to "" trims to a clean tag |
| Form.TagsClean | src/lib/utils/form.ts:3-6 | trimming the comma-free pieces and dropping the empty ones leaves only clean tags |
| Form.ParseTagListJoin | src/lib/utils/form.ts:1-7 | round trip: clean tags joined with "," parse back to the same list, in order and with duplicates kept |
| Form.ParseBoolean | src/lib/utils/form.ts:9-14 | a non-text value gives the fallback; a text value is true exactly when, character by character, it lower-cases to `true`, `1`, `on` or `yes`, with no trimming |
| Form.SpellsIffLower | src/lib/utils/form.ts:11 | a text spells a word character by character in any case exactly when its lower-cased form is that word |
| Form.ParseBooleanDefault | src/lib/utils/form.ts:9 | with the default fallback, only a text value can read as true |
| Form.ParseBooleanCaseInsensitive | src/lib/utils/form.ts:11 | a value and its lower-cased form parse alike |
| Form.ParseBooleanNoTrim | src/lib/utils/form.ts:10-11 | the value is not trimmed: " yes" reads as false, "YES" as true |
| Story.List | src/lib/utils/story.ts:14-19 | no items give "", one item gives that item |
| Story.ListShape | src/lib/utils/story.ts:17-18 | for two or more items: all but the last joined by ", ", then " and ", then the last |
| Story.Lines | src/lib/utils/story.ts:43-73 | the paragraphs start with the intro and end with the closing paragraph |
| Story.TraitsLine | src/lib/utils/story.ts:48-50 | a personality paragraph exists exactly when some trait is non-empty, and it is never empty |
| Story.SocialLine | src/lib/utils/story.ts:52-63 | a social paragraph exists exactly when some "good with" entry is non-empty or training is truthy, and it is never empty |
| Story.CareLine | src/lib/utils/story.ts:65-67 | a care-notes paragraph exists exactly when `medicalNeeds` is truthy, and it is never empty |
| Story.Closing | src/lib/utils/story.ts:69-73 | the closing paragraph is never empty; with an ideal home it is "Ideal home: ", the trimmed ideal home and a full stop, otherwise it starts with the name followed by the fixed thrive sentence |
| Story.BuildParagraphs | src/lib/utils/story.ts:33-73 | the traits, social and care paragraphs are present exactly under the source's conditions, after empty entries are dropped |
| Story.IntroLineNonEmpty | src/lib/utils/story.ts:44-46 | the first paragraph is never empty |
| Story.LinesNonEmpty | src/lib/utils/story.ts:43-73 | non-empty paragraphs give a list of non-empty lines |
| Story.StoryParagraphs | src/lib/utils/story.ts:75 | the final filter drops nothing: the story is the paragraphs joined by "\n\n" |
| Story.IntroLineStart | src/lib/utils/story.ts:44-46 | the first paragraph starts with `name + " is a "` when the name does not start with whitespace |
| Story.StoryStartsWithName | src/lib/utils/story.ts:44-46 | the story starts with `name + " is a "` when the name does not start with whitespace |
| Story.TraitsIgnoreEmpty | src/lib/utils/story.ts:33 | an empty string among the personality traits never changes the story |
| Story.GoodWithIgnoreEmpty | src/lib/utils/story.ts:34 | an empty string among the "good with" entries never changes the story |
| Seqs.Dedupe | src/lib/utils/favorites.ts:45 | `ensureUnique`: the result is duplicate-free, holds exactly the input's elements and is no longer than the input |
| Seqs.DedupeOrder | src/lib/utils/favorites.ts:45 | `ensureUnique` keeps elements in the order of their first occurrence |
| Seqs.DedupeOfDistinct | src/lib/utils/favorites.ts:45 | a duplicate-free list is returned unchanged |
| Seqs.Remove | src/lib/utils/favorites.ts:52 | `filter(item => item !== id)`: no occurrence of id is left and every other element is kept |
| Favorites.WithList | src/lib/utils/favorites.ts:49-58 | the chosen list is replaced and the other list is left as it was |
| Favorites.Toggle | src/lib/utils/favorites.ts:47-61 | after a toggle `isFavorite` of the id is negated, membership of every other id is unchanged, and the other kind's list is untouched |
| Favorites.ToggleAppends | src/lib/utils/favorites.ts:55-58 | toggling an absent id appends it once at the end of the de-duplicated list (at the end of the list itself when it is duplicate-free) |
| Favorites.ToggleRemoves | src/lib/utils/favorites.ts:51-54 | toggling a present id removes every occurrence and keeps the rest in order |
| Favorites.ToggleKeepsDistinct | src/lib/utils/favorites.ts:47-61 | a duplicate-free list stays duplicate-free |
| Favorites.ToggleTwiceAbsent | src/lib/utils/favorites.ts:47-61 | on a duplicate-free list, adding an absent id and toggling it again restores the state |
| Favorites.ToggleTwiceMovesToEnd | src/lib/utils/favorites.ts:47-61 | toggling a present id twice restores membership but not order: ["a","b"] becomes ["b","a"] |
| Retry.InsertWithRetry | src/routes/api/shortlists/+server.ts:31-60 | the loop agrees with its reference definition; at most `max` inserts; every insert before the last hit a unique violation; a stored key is the last one tried; a non-23505 error stops at once; exhaustion means every attempt collided |
| Retry.FirstAttemptWins | src/routes/api/shortlists/+server.ts:47-50 | a first insert that succeeds ends the loop with that key |
| Retry.RetryPrefix | src/routes/api/shortlists/+server.ts:52-58 | attempts that collide only hand on to the next attempt |
| Retry.ErrorStops | src/routes/api/shortlists/+server.ts:52-55 | a non-23505 error after collisions ends the loop as failed, whatever later attempts would do |
| Shortlists.NormalizeIds | src/routes/api/shortlists/+server.ts:6-7 | a non-array gives []; every id is non-empty; no more ids than array elements |
| Shortlists.MapToStr | src/routes/api/shortlists/+server.ts:7 | each element goes through `String(v)`, position by position |
| Shortlists.NormalizeStrings | src/routes/api/shortlists/+server.ts:6-7 | an array of non-empty strings normalises to itself, so only empty ids are dropped |
| Shortlists.DedupeAndLimit | src/routes/api/shortlists/+server.ts:9 | exactly the first `limit` distinct ids in first-occurrence order (all of them when fewer): the count is pinned, the ids are duplicate-free and all from the input |
| Shortlists.DedupeAndLimitKeepsAll | src/routes/api/shortlists/+server.ts:9 | under the limit every distinct id is kept |
| Shortlists.PayloadIds | src/routes/api/shortlists/+server.ts:14-16 | reading a field fails only for a null body; the ids are at most 50 and distinct |
| Shortlists.ToHex | src/routes/api/shortlists/+server.ts:11 | two lower-case hex digits per byte |
| Shortlists.HexValueOf | src/routes/api/shortlists/+server.ts:11 | each hex digit decodes to the nibble it encodes |
| Shortlists.HexRoundTrip | src/routes/api/shortlists/+server.ts:11 | decoding the hex text gives back the bytes |
| Shortlists.BuildToken | src/routes/api/shortlists/+server.ts:11 | a token is 24 lower-case hex characters |
| Shortlists.InsertShortlist | src/routes/api/shortlists/+server.ts:29-60 | at most 3 inserts; a new token only after a collision; a stored token was free; a failure is a non-23505 error; exhaustion means all three tokens collided |
| Shortlists.NewList | src/routes/api/shortlists/+server.ts:36-44 | the inserted row holds both id lists, and its payload snapshot repeats them with the snapshot time |
| Shortlists.CreateShortlist | src/routes/api/shortlists/+server.ts:13-61 | both id lists empty gives the 400 with no insert; a shared list stores, under a fresh 24-character token linked as `origin/saved/token`, the body's normalised animal and rescue ids; any other outcome leaves the table unchanged; at most 3 inserts |
| Shortlists.RevokeWith | src/routes/api/shortlists/revoke/+server.ts:9-39 | an empty token is a 400; the row is revoked exactly when the token names an unrevoked row and the store answers; the returned time is the one written; otherwise nothing changes and a missing or revoked token is a 404 |
| Shortlists.Revoke | src/routes/api/shortlists/revoke/+server.ts:5-40 | the same, with the token read from the body and trimmed |
| Shortlists.RevokeTwice | src/routes/api/shortlists/revoke/+server.ts:22-37 | revocation is single use: a second revoke of the same token is a 404 and changes nothing |
| Shortlists.RevokeOnlyThatRow | src/routes/api/shortlists/revoke/+server.ts:22-28 | no row other than the token's changes |
| Sorting.Insert | src/routes/api/favorites/preview/+server.ts:54 | one insertion step keeps every element and puts x at the front or keeps the old head |
| Sorting.InsertSorted | src/routes/api/favorites/preview/+server.ts:54 | inserting into a list sorted by key keeps it sorted |
| Sorting.SortBy | src/routes/api/favorites/preview/+server.ts:54 | `sort` by a numeric key: a permutation of the input, sorted by the key |
| Sorting.FirstMin | src/routes/api/favorites/preview/+server.ts:54 | the position of a least key, with every earlier key strictly greater |
| Sorting.SortHeadIsFirstMin | src/routes/api/favorites/preview/+server.ts:54 | the stable sort's head is the first element with the least key |
| Rows.Thumb | src/routes/api/favorites/preview/+server.ts:53-55 | no photos, or a null embedding, give "" |
| Rows.ThumbIsFirstMin | src/routes/api/favorites/preview/+server.ts:53-55 | the thumbnail is the image of the first photo with the least `sort_order`, a null order counting as 0 |
| Rows.SortPhotos | src/routes/pets/+page.server.ts:19 | the in-place `sort` leaves the same photos, ordered by `sort_order` with null as 0 |
| Rows.ThumbIsFirstSorted | src/routes/pets/+page.server.ts:18-20 | the thumbnail is the first image of the sorted photos, or "" |
| Preview.Avatar | src/routes/api/favorites/preview/+server.ts:65 | `profile_image_url`, else `logo_url`, else null |
| Preview.AnimalCards | src/routes/api/favorites/preview/+server.ts:47-57 | one card per row, in order |
| Preview.RescueCards | src/routes/api/favorites/preview/+server.ts:59-67 | one card per row, in order |
| Preview.AnimalQuery | src/routes/api/favorites/preview/+server.ts:18-28 | exactly the table's rows with a requested id that are active and available or on hold |
| Preview.RescueQuery | src/routes/api/favorites/preview/+server.ts:30-36 | exactly the rows with a requested id: nothing else, and every requested rescue in the table |
| Preview.HandlePreview | src/routes/api/favorites/preview/+server.ts:9-70 | only a null body throws; at most two queries run |
| Preview.Respond | src/routes/api/favorites/preview/+server.ts:14-69 | both id lists empty give two empty lists and no query; otherwise cards, never more than the rows |
| Preview.AnimalCardsFromRequestedRows | src/routes/api/favorites/preview/+server.ts:18-57 | every animal card comes from a listed row whose id was requested |
| Preview.RescueCardsFromRequestedRows | src/routes/api/favorites/preview/+server.ts:30-67 | every rescue card comes from a requested rescue |
| Preview.RequestedListedAnimalShown | src/routes/api/favorites/preview/+server.ts:18-57 | every requested, listed animal gets a card when its query succeeds |
| Preview.RequestedRescueShown | src/routes/api/favorites/preview/+server.ts:30-36 | every requested rescue in the table gets a card when its query succeeds |
| Preview.EmptyIdsNoQuery | src/routes/api/favorites/preview/+server.ts:11-16 | with no usable ids the answer is two empty lists and no query runs, whatever the tables hold |
| Admin.AllowList | src/lib/server/admin.ts:5-8 | every entry of the allow-list is non-empty |
| Admin.IsAdminEmail | src/lib/server/admin.ts:3-10 | a null, undefined or empty email is never an operator |
| Admin.NonEmptyLowerAll | src/lib/server/admin.ts:7-8 | lower-casing and dropping empty entries commute |
| Admin.AllowListIsLoweredTags | src/lib/server/admin.ts:5-8 | the list is the setting's comma-separated, trimmed, non-empty pieces, lower-cased |
| Admin.LowerCleanTag | src/lib/server/admin.ts:7 | lower-casing a clean piece gives a clean entry |
| Admin.AllowListEntriesClean | src/lib/server/admin.ts:5-8 | every entry is non-empty, trimmed, comma-free and lower-case |
| Admin.UnsetRejectsAll | src/lib/server/admin.ts:5 | with `ADMIN_EMAILS` unset the list is empty and every email is rejected |
| Admin.LeadingSpaceNeverAdmin | src/lib/server/admin.ts:9 | the candidate is not trimmed, so an address starting with whitespace never matches |
| Admin.AdminOfJoinedList | src/lib/server/admin.ts:3-10 | for a setting of clean lower-case entries joined by ",", an email is an operator exactly when it is non-empty and its lower-cased form is an entry |
| Storage.GetBucket | src/lib/server/storage.ts:10-15 | an unset or empty setting fails with "Missing SUPABASE_STORAGE_BUCKET"; otherwise the setting itself |
| Storage.Marker | src/lib/server/storage.ts:54 | the marker `/object/public/<bucket>/` is the bucket plus 16 characters, with a '/' at each end |
| Storage.ExtractStoragePath | src/lib/server/storage.ts:52-58 | fails exactly when the bucket is missing; null exactly when the marker does not occur; otherwise a suffix of the URL |
| Storage.ExtractRoundTrip | src/lib/server/storage.ts:52-58 | when no occurrence of the marker starts inside the prefix, `extract(prefix + marker + p) == p` |
| Storage.PrefixWithoutMarkerIsNotEnough | src/lib/server/storage.ts:55-57 | a prefix free of the marker is not enough: for "/object/public/b" the path comes back with the prefix's text in front |
| Storage.UploadPath | src/lib/server/storage.ts:21 | the object path starts with `animalId + "/"` and ends with `"-" + fileName` |
| Storage.UploadAnimalPhoto | src/lib/server/storage.ts:17-40 | a missing bucket fails before any upload; success exactly when the bucket is set and the upload succeeds, with the path's public URL |
| Storage.UploadThenExtract | src/lib/server/storage.ts:17-58 | an uploaded photo's public URL extracts back to its path |
| Animals.PageParams | src/lib/server/animals.ts:56-58 | page is at least 1 and defaults to 1; pageSize defaults to 9; offset is `(page-1)*pageSize` and never negative for a non-negative size |
| Animals.Range | src/lib/server/animals.ts:75 | `.range(from, to)` returns at most `to-from+1` rows |
| Animals.Matching | src/lib/server/animals.ts:59-73 | exactly the table's rows of the rescue that are active and pass the species (ignoring case) and status filters when supplied, in table order |
| Animals.ListPublicAnimals | src/lib/server/animals.ts:50-76 | the count is that of all matching rows; every returned row is the rescue's and active; at most pageSize rows (9 by default); the rows are the requested page of the matches |
| Animals.PageSize | src/lib/server/animals.ts:58-75 | a page holds exactly pageSize rows when enough remain, the remainder otherwise |
| Animals.PageSlice | src/lib/server/animals.ts:58-75 | page p is the slice starting at its offset |
| Animals.PagesTile | src/lib/server/animals.ts:58-75 | pages 1..n laid end to end are the first n·pageSize rows: consecutive pages are adjacent and never overlap |
| Animals.MaybeSingle | src/lib/server/animals.ts:85 | `.maybeSingle()`: no row for an empty result, the row for exactly one |
| Animals.GetPublicAnimalById | src/lib/server/animals.ts:78-86 | a found animal is active and has the id; no row exactly when every row with that id is inactive |
| Directory.CountOf | src/routes/rescues/+page.server.ts:22-27 | reference count of a rescue's listed rows (active, and available or on hold); never more than the rows |
| Directory.Counts | src/routes/rescues/+page.server.ts:22-27 | a rescue has a key exactly when it has a listed row, and its value is the number of its listed rows |
| Directory.CountStep | src/routes/rescues/+page.server.ts:23-26 | one more row raises exactly its own rescue's count, and only when the row is listed |
| Directory.CountIn | src/routes/rescues/+page.server.ts:22-27 | the listed rows of a set of rescues never exceed the rows |
| Directory.SumCountsSnoc | src/routes/rescues/+page.server.ts:23-26 | appending a row raises the sum over distinct rescues by one exactly when the row is listed and its rescue is among them |
| Directory.SumCountsBounded | src/routes/rescues/+page.server.ts:22-27 | summed over distinct rescues the counts equal the listed rows of those rescues, so never exceed the number of rows: no row is counted twice |
| Directory.SumCountsEmpty | src/routes/rescues/+page.server.ts:22 | with no animal rows every sum is zero |
| Directory.Load | src/routes/rescues/+page.server.ts:3-30 | a rescue query error gives no rescues and no counts; an animal query error gives the rescues with empty counts; otherwise the counts are the listed rows per rescue |
| Sample.StrLtIrreflexive | src/routes/rescue/sample/+page.server.ts:113-118 | the comparison used for sorting never puts a string before itself |
| Sample.StrLtTransitive | src/routes/rescue/sample/+page.server.ts:113-118 | the comparison is transitive |
| Sample.StrLtTotal | src/routes/rescue/sample/+page.server.ts:113-118 | any two different strings are ordered one way or the other |
| Sample.Insert | src/routes/rescue/sample/+page.server.ts:113-118 | one insertion step adds exactly the new element |
| Sample.SortStrings | src/routes/rescue/sample/+page.server.ts:113-118 | sorting is a permutation of its input |
| Sample.InsertSorted | src/routes/rescue/sample/+page.server.ts:113-118 | inserting a new element into a strictly increasing list keeps it strictly increasing |
| Sample.SortStringsSorted | src/routes/rescue/sample/+page.server.ts:113-118 | sorting a duplicate-free list yields a strictly increasing list |
| Sample.OptionsShape | src/routes/rescue/sample/+page.server.ts:113-118 | the species and status options are the distinct values present in the sample animals, each exactly once, in increasing order |
| Sample.Param | src/routes/rescue/sample/+page.server.ts:120-123 | a filter is absent exactly when the parameter is missing or empty, and otherwise is the parameter |
| Sample.Load | src/routes/rescue/sample/+page.server.ts:112-139 | the animals shown are a subsequence of the sample animals; each filter is absent exactly when its parameter is missing or empty |
| Sample.LoadShows | src/routes/rescue/sample/+page.server.ts:125-129 | an animal is shown exactly when it is a sample animal whose species matches ignoring case and whose status matches exactly, absent filters passing everything |
| Sample.NoParamsShowsAll | src/routes/rescue/sample/+page.server.ts:120-129 | with both parameters missing or empty every sample animal is shown, in order |
| Sample.SpeciesIgnoresCase | src/routes/rescue/sample/+page.server.ts:126 | species parameters that agree ignoring case select the same animals |
| Pets.PetsQuery | src/routes/pets/+page.server.ts:4-9 | every row returned is active with status available or hold; the rows are exactly the table's listed rows, each as often as in the table; newest first |
| Pets.ShownRow | src/routes/pets/+page.server.ts:16-20 | a returned row keeps every column but the photos, which `sort` has reordered in place: the same photos sorted by `sort_order`, the thumbnail being the first |
| Pets.Cards | src/routes/pets/+page.server.ts:16-20 | one card per row, in order: the row with its photos sorted, plus its thumbnail |
| Pets.Load | src/routes/pets/+page.server.ts:3-23 | a query error yields no animals; otherwise every card is a listed animal whose photos are sorted and whose thumbnail is the first of them, newest first |
| Pets.LoadIsListedRows | src/routes/pets/+page.server.ts:3-20 | every listed table row appears, with its photos sorted, and every card is such a row |
| SavedSearch.KindOf | src/routes/api/saved-search/+server.ts:6-17 | the kind is always an allowed kind, and is the requested kind exactly when that one is allowed |
| SavedSearch.FrequencyOf | src/routes/api/saved-search/+server.ts:7-20 | the frequency is always daily or weekly, and is the requested one exactly when that one is allowed |
| SavedSearch.NormalizeEmail | src/routes/api/saved-search/+server.ts:18 | the normalised address is no longer than the input and holds no upper-case letter |
| SavedSearch.NormalizeEmailIdempotent | src/routes/api/saved-search/+server.ts:18 | normalising twice is normalising once |
| SavedSearch.SanitizeQuery | src/routes/api/saved-search/+server.ts:9-12 | the result is an object (or array); an object or array passes through unchanged |
| SavedSearch.SanitizeQueryIdempotent | src/routes/api/saved-search/+server.ts:9-12 | sanitising twice is sanitising once |
| SavedSearch.Spread | src/routes/api/saved-search/+server.ts:48 | spreading an object copies exactly its fields |
| SavedSearch.SpreadItems | src/routes/api/saved-search/+server.ts:48 | spreading an array gives every index a key |
| SavedSearch.QueryParams | src/routes/api/saved-search/+server.ts:47-51 | the stored query holds the source path and creation time, every other key keeps its spread value, and no spread key is lost |
| SavedSearch.FieldsOf | src/routes/api/saved-search/+server.ts:15-25 | after defaulting, kind and frequency are allowed values; a rescue id is kept only for `rescue_animals` with a truthy `rescueId` |
| SavedSearch.Validate | src/routes/api/saved-search/+server.ts:27-33 | "Valid email required" exactly when the email is empty or lacks `@`; "Missing rescue id" exactly when the email is fine but a `rescue_animals` alert has no rescue id; nothing else is rejected here |
| SavedSearch.Post | src/routes/api/saved-search/+server.ts:14-65 | any response but success leaves the table unchanged; a `null` body throws, and only it; success appends exactly one row |
| SavedSearch.ValidFieldsWellFormed | src/routes/api/saved-search/+server.ts:16-52 | fields that pass validation build a well-formed alert: allowed kind and frequency, normalised address with `@`, a non-empty rescue id exactly for `rescue_animals`, path and time recorded |
| SavedSearch.PostStoresWellFormed | src/routes/api/saved-search/+server.ts:42-64 | every alert the handler stores is well formed |
| SavedSearch.RescueAnimalsNeedsId | src/routes/api/saved-search/+server.ts:21-33 | a `rescue_animals` body with a valid email and a falsy `rescueId` is refused with "Missing rescue id" and stores nothing, whatever the service state |
| SavedSearch.QueryParamsFixpoint | src/routes/api/saved-search/+server.ts:47-51 | a query already holding this path and time is stored unchanged |
| SavedSearch.ResubmitFields | src/routes/api/saved-search/+server.ts:16-25 | the body re-submitting an alert carries the alert's kind, email, frequency, rescue id and query under the keys the handler reads |
| SavedSearch.FieldsOfResubmit | src/routes/api/saved-search/+server.ts:15-25 | a well-formed alert's body defaults and normalises back to the alert's own fields |
| SavedSearch.ResubmitRoundTrip | src/routes/api/saved-search/+server.ts:14-65 | re-submitting a stored alert from the same path at the same time succeeds and stores that same alert again |
| Stripe.Apply | src/routes/api/webhooks/stripe/+server.ts:44-87 | each column present in the update body is overwritten, each absent one keeps its value |
| Stripe.ApplyIdempotent | src/routes/api/webhooks/stripe/+server.ts:42-50 | writing the same update twice equals writing it once |
| Stripe.Chain | src/routes/api/webhooks/stripe/+server.ts:61 | optional chaining on an undefined value stays undefined |
| Stripe.ChainFirst | src/routes/api/webhooks/stripe/+server.ts:61 | `?.[0]` on an undefined value stays undefined |
| Stripe.LowerOpt | src/routes/api/webhooks/stripe/+server.ts:38-61 | `?.toLowerCase()` lowers a string and is undefined on null or undefined |
| Stripe.PeriodEnd | src/routes/api/webhooks/stripe/+server.ts:58-60 | a falsy period end is stored as null; a number of seconds within the `Date` range is stored as that many thousand milliseconds |
| Stripe.CheckoutTier | src/routes/api/webhooks/stripe/+server.ts:38-45 | the checkout tier is `supporter` exactly when the lower-cased plan is `supporter`, otherwise `pro`; it throws exactly when lower-casing does |
| Stripe.SubscriptionTier | src/routes/api/webhooks/stripe/+server.ts:61-68 | the subscription tier is `supporter` exactly when the lower-cased nickname contains `support`, otherwise `pro`; it throws exactly when lower-casing does |
| Stripe.ObjectOf | src/routes/api/webhooks/stripe/+server.ts:26 | the event object is never null |
| Stripe.MetadataOf | src/routes/api/webhooks/stripe/+server.ts:27 | the metadata is never null |
| Stripe.RescueIdOf | src/routes/api/webhooks/stripe/+server.ts:28 | the rescue id is truthy when present; a truthy `rescue_id` wins; absent exactly when neither key is truthy |
| Stripe.CheckoutPatch | src/routes/api/webhooks/stripe/+server.ts:37-50 | a checkout writes the checkout tier and marks the subscription `active` when present, null otherwise; it throws exactly when the tier does |
| Stripe.SubscriptionPatch | src/routes/api/webhooks/stripe/+server.ts:56-74 | a subscription event writes the nickname's tier, the event's status and its period end; it throws exactly when the tier or the date does |
| Stripe.DeletedPatch | src/routes/api/webhooks/stripe/+server.ts:80-88 | a deletion writes tier `free`, status `canceled` and the current time, and leaves the ids alone |
| Stripe.PlanFor | src/routes/api/webhooks/stripe/+server.ts:37-92 | an event of any other type asks for no update; a deletion asks for the deletion update |
| Stripe.Write | src/routes/api/webhooks/stripe/+server.ts:42-53 | the update touches only the named row, and a store error (only logged) leaves the table as it was |
| Stripe.Webhook | src/routes/api/webhooks/stripe/+server.ts:7-95 | unconfigured gives 500 and bad signature 400, both without change; a missing service-role configuration throws for every verified event naming a rescue, without change; only an acknowledged event can change the table; no row is ever added or removed |
| Stripe.NoRescueIdNoUpdate | src/routes/api/webhooks/stripe/+server.ts:28-33 | an event whose metadata names no rescue is acknowledged and changes nothing |
| Stripe.WebhookTouchesOneRow | src/routes/api/webhooks/stripe/+server.ts:50-88 | every row other than the named rescue's is unchanged |
| Stripe.CheckoutBilling | src/routes/api/webhooks/stripe/+server.ts:37-54 | a completed checkout is acknowledged, sets `supporter` exactly when the lower-cased metadata plan is `supporter` and `pro` otherwise, and sets the status `active` exactly when a subscription is present, null otherwise |
| Stripe.SubscriptionBilling | src/routes/api/webhooks/stripe/+server.ts:56-78 | a subscription event sets `supporter` exactly when the lower-cased nickname contains `support`, and stores the period end in milliseconds, or null when falsy |
| Stripe.DeletedBilling | src/routes/api/webhooks/stripe/+server.ts:80-92 | a deleted subscription leaves the rescue `free` and `canceled` with the period ending now, whatever it held before, and keeps the customer id |
| Stripe.WebhookRedeliveryIdempotent | src/routes/api/webhooks/stripe/+server.ts:7-95 | delivering the same event twice leaves the table as one delivery does |
| Team.AcceptableRows | src/lib/server/team.ts:73-78 | the lookup selects exactly the invitations with the token, not accepted and not expired |
| Team.Lookup | src/lib/server/team.ts:73-79 | a found invitation is in the table and acceptable, and is the only acceptable one; no row exactly when none is acceptable |
| Team.MarkAccepted | src/lib/server/team.ts:98-101 | exactly the rows with the invitation's id get `accepted_at` set; the rest are unchanged |
| Team.Accept | src/lib/server/team.ts:71-104 | with no invitation reported nothing changes; success exactly when an invitation is reported and the final update succeeds; a reported invitation was acceptable and the user now holds its role in its rescue |
| Team.UpsertFailureKeepsInvite | src/lib/server/team.ts:86-96 | a failed membership upsert reports an error and leaves both tables as they were |
| Team.AcceptTouchesOneMembership | src/lib/server/team.ts:86-92 | every other membership keeps its role |
| Team.MarkAcceptedClears | src/lib/server/team.ts:98-101 | once the only acceptable row is marked accepted, no row with the token is acceptable then or later |
| Team.AcceptIsSingleUse | src/lib/server/team.ts:71-104 | after a successful acceptance the same token finds nothing at that time or later, so a second acceptance fails with "not found or expired" |
| Team.CanceledInviteAccepted | src/lib/server/team.ts:73-79 | a cancelled but unaccepted, unexpired invitation is still accepted: the lookup does not consult `canceled_at` |
| Team.Cancel | src/lib/server/team.ts:118-120 | exactly the rows with the id get `canceled_at` set; a store error changes nothing |
| Team.Create | src/lib/server/team.ts:50-69 | a failed insert changes nothing; otherwise exactly one invitation is appended, carrying the rescue, creator, email, role and token, neither accepted nor cancelled |
| Team.PendingInvitations | src/lib/server/team.ts:39-45 | the fallback lists exactly the rescue's invitations that are neither accepted nor cancelled, each as often as stored, newest first |
| Team.PendingRows | src/lib/server/team.ts:41-44 | the filtered rows are exactly the rescue's unaccepted, uncancelled invitations |
| Team.ListInvitations | src/lib/server/team.ts:30-48 | the view's rows when the view answers, the fallback otherwise |
| Team.CancelLeavesPending | src/lib/server/team.ts:118-120 | after cancelling an id an invitation is pending exactly when it was pending and has another id |
| Team.CreatedIsPending | src/lib/server/team.ts:50-69 | a newly created invitation is pending for its rescue |
| Team.UpdateRole | src/lib/server/team.ts:106-108 | only the row with that rescue and user takes the role; no row is added or removed |
| Team.RemoveMember | src/lib/server/team.ts:110-112 | exactly the row with that rescue and user is deleted; the others keep their roles |
| Team.UpdateAfterRemove | src/lib/server/team.ts:106-112 | updating a removed member's role changes nothing |
| Team.UpdateSameRole | src/lib/server/team.ts:106-108 | setting a member's role to the one it has changes nothing |
| Onboarding.Load | src/routes/onboarding/+page.server.ts:13-31 | anonymous visitors, and only they, are sent to the login page; a user with a rescue, and only such a user, goes to the dashboard; otherwise the defaults are the user's email (or empty) and a well-formed slug |
| Onboarding.RawOf | src/routes/onboarding/+page.server.ts:47-51 | the slug value is never empty: a blank typed slug falls back to the slug of the name |
| Onboarding.CandidateOfForm | src/routes/onboarding/+page.server.ts:49-56 | the slug validated is the typed slug re-slugged, or the slug of the untrimmed name when the typed one is blank; either way it is a slug matching `^[a-z0-9-]+$` |
| Onboarding.CandidateOfSlug | src/routes/onboarding/+page.server.ts:55 | with a slug value present the name is ignored and the candidate is a well-formed slug |
| Onboarding.CandidateSlugRule | src/routes/onboarding/+page.server.ts:7-11 | validation passes exactly when the name has at least 3 UTF-16 code units, the candidate slug at least 2 characters (a slug is ASCII, so one unit each), and the email is valid: the pattern rule can never fail |
| Onboarding.Prefix4 | src/routes/onboarding/+page.server.ts:81 | `slice(0, 4)` keeps four characters, or all of a shorter string |
| Onboarding.SlugForShape | src/routes/onboarding/+page.server.ts:81 | every retry slug is the base slug, a dash and at most four characters: suffixes never accumulate |
| Onboarding.SlugForIsSlug | src/routes/onboarding/+page.server.ts:81 | a retry slug built from a slug and four slug characters is itself a slug |
| Onboarding.InsertSlug | src/routes/onboarding/+page.server.ts:65-90 | between one and five inserts; every attempt but the last collided; a stored slug is the last attempt's, was free and did not fault; exhaustion exactly when all five collided; a free base slug is stored on the first attempt |
| Onboarding.CreateRescue | src/routes/onboarding/+page.server.ts:65-107 | a rescue row exists exactly on creation or a failed link, under a slug that was free; on creation the user is owner of the new rescue and nothing else changes in the memberships; slug conflicts exactly when all five attempts collided |
| Onboarding.Onboard | src/routes/onboarding/+page.server.ts:62-112 | the outcome is the dashboard redirect or a server error; a changed rescues table gained exactly the new row under a previously free slug; a changed membership table gained exactly the owner row, and only together with the rescue; slug conflicts and insert faults change nothing; a free candidate slug is used as is |
| Onboarding.Respond | src/routes/onboarding/+page.server.ts:34-113 | login redirect for anonymous users and dashboard redirect for users with a rescue, both without change; 400 with the values exactly when validation fails, without change; any change is the new rescue row and the owner membership for the signed-in user |
| Onboarding.Submit | src/routes/onboarding/+page.server.ts:34-60 | anonymous users are redirected to login without change; 400 exactly when the form's trimmed values fail validation, echoing them back without change |
| Signup.FallbackDisplay | src/routes/auth/signup/+page.server.ts:69 | the fallback display name is never empty and holds no `@` |
| Signup.FallbackDisplayOfAddress | src/routes/auth/signup/+page.server.ts:69 | the fallback is the text before the first `@`, or "Member" when that is empty; an address without `@` is used whole |
| Signup.FallbacksDisagreeOnEmptyLocalPart | src/routes/auth/signup/+page.server.ts:69 | for an address with an empty local part signup stores "Member" while first sign-in keeps the empty string |
| Signup.UpsertProfile | src/routes/auth/signup/+page.server.ts:68-79 | other users' profiles are untouched; on success the user's row has the fallback display name, a null full name and the email, and keeps an existing avatar; a failure, which is ignored, changes nothing |
| Signup.OrNull | src/routes/auth/signup/+page.server.ts:93-97 | `value \|\| null` is null exactly for the empty string and the value otherwise |
| Signup.SlugBaseShape | src/routes/auth/signup/+page.server.ts:81-106 | the first slug is the well-formed slug of the name (so the `'rescue'` fallback never applies), and every retry slug extends it by at most a dash and four characters |
| Signup.Register | src/routes/auth/signup/+page.server.ts:68-135 | the profile is upserted first; every attempt but the last collided; a changed rescues table gained exactly the new free public row under the last attempt's previously free slug; a changed membership table gained exactly the owner row, only together with the rescue; a failed rescue insert changes neither table |
| Signup.Rejection | src/routes/auth/signup/+page.server.ts:45-66 | nothing is rejected exactly when the values are valid and the account was created; invalid values give 400 with the values; `user_already_exists` gives "account exists", any other auth error "unable to create", a missing user "signup incomplete" |
| Signup.Respond | src/routes/auth/signup/+page.server.ts:32-136 | 400 "invalid" exactly when validation fails, including whenever the passwords differ; the auth answers map to their messages exactly; a rejection writes nothing; any written rescue and membership are the new account's |
| Signup.Submit | src/routes/auth/signup/+page.server.ts:32-48 | 400 "invalid" exactly when the trimmed form values fail validation, and whenever the passwords differ; a rejection writes nothing |
| Profiles.MetaString | src/lib/server/profiles.ts:11-17 | a metadata value is read only from an object holding the key with a non-null value, and a string reads back as itself |
| Profiles.LocalPart | src/lib/server/profiles.ts:12 | the local part exists exactly when the email does, and holds no `@` |
| Profiles.DisplayNamePrecedence | src/lib/server/profiles.ts:10-13 | the display name is the metadata full name, else the text before the first `@` (all of an address without one), else "Member" |
| Profiles.NewProfile | src/lib/server/profiles.ts:14-41 | full name and avatar are null exactly when the metadata lacks them; a full name is also the display name; the email is the user's |
| Profiles.UpsertProfileForUser | src/lib/server/profiles.ts:7-46 | existing profiles are never changed; the table changes exactly when there is a user, the lookup succeeds, the user has no profile and the insert succeeds, and then only by the new user's row |
| Profiles.UpsertIdempotent | src/lib/server/profiles.ts:19-33 | once a profile was inserted, running again changes nothing |
| Profiles.EmptyLocalPartKept | src/lib/server/profiles.ts:10-13 | with silent metadata an address with an empty local part gives an empty display name, since `??` only skips undefined |
| Templates.Greeting | src/lib/email/templates.ts:31-42 | the greeting is never empty, and is the adopter's name whenever that is given |
| Templates.BuildAdopterInquiryTemplate | src/lib/email/templates.ts:27-55 | the subject is "We received your inquiry for " followed by exactly the animal's name; the text opens with the greeting line |
| Templates.AdopterGreeting | src/lib/email/templates.ts:42 | the text opens "Hi there," exactly for an empty name and "Hi <name>," otherwise |
| Templates.AdopterTextLinks | src/lib/email/templates.ts:42-52 | the adopter's text carries the message and the listing link |
| Templates.BuildRescueNotificationTemplate | src/lib/email/templates.ts:57-84 | the subject is the adopter's name, " applied for ", then exactly the animal's name |
| Templates.RescueTextLinks | src/lib/email/templates.ts:73-81 | the rescue's text carries the adopter's address, the dashboard link and the listing link |
| Resend.StripTrailingSlash | src/lib/email/resend.ts:26 | the result is the input, or the input less one trailing slash, and that slash is removed whenever present |
| Resend.StripsAtMostOne | src/lib/email/resend.ts:26 | only one slash is removed: a base ending in "//" keeps one |
| Resend.BuildUrls | src/lib/email/resend.ts:25-31 | the animal link is the base, `/animal/` and exactly the animal id; the dashboard link is the base, `/admin/inquiries/` and exactly the inquiry id |
| Resend.TrailingSlashIrrelevant | src/lib/email/resend.ts:25-31 | a base written with or without its trailing slash gives the same links |
| Resend.SendError | src/lib/email/resend.ts:74-102 | a send adds one error exactly when it threw or the service reported an error |
| Resend.DispatchInquiryEmails | src/lib/email/resend.ts:33-106 | without an API key or sender the result is skipped with only "Resend is not configured" and nothing is sent; otherwise the adopter is always mailed first, the rescue exactly when it has an address; one error per failed send plus "Rescue contact email missing" when the address is empty; the subjects are the templates' |
| Resend.CleanDispatch | src/lib/email/resend.ts:62-105 | when both sends succeed nothing is reported and both ids come back |
| Resend.ErrorOrder | src/lib/email/resend.ts:74-101 | the adopter's error is reported before the rescue's |
| Validation.TrimOrNull | src/lib/validation/animal.ts:11-26 | the value is null exactly when absent or blank; otherwise it is non-empty, trimmed and no longer than the input in code units |
| Validation.TrimOrNullIdempotent | src/lib/validation/animal.ts:11-26 | normalising a normalised optional text changes nothing |
| Validation.ParseAnimalStatus | src/lib/validation/animal.ts:27 | exactly `available`, `hold` and `adopted` are accepted, each to the status of that name |
| Validation.AnimalStatusRoundTrip | src/lib/validation/animal.ts:27 | every status's name parses back to it |
| Validation.AnimalIssues | src/lib/validation/animal.ts:3-30 | no issue exactly when the form is valid; name and species are reported exactly when shorter than 2 UTF-16 code units, status exactly when not one of the three names |
| Validation.ParseAnimalForm | src/lib/validation/animal.ts:3-30 | success exactly when every rule holds, lengths counted in UTF-16 code units; a failure names at least one field and flags name, species and status exactly when they fail; on success names are kept, optional texts trimmed or null, tags default to none and `is_active` to true |
| Validation.AnimalFormRoundTrip | src/lib/validation/animal.ts:3-30 | a parsed form submitted again parses to itself |
| Validation.BlankBecomesNull | src/lib/validation/animal.ts:7-26 | a blank optional text is stored as null, never as the empty string |
| Validation.ParsePhotoReorder | src/lib/validation/animal.ts:32-35 | success exactly when the animal id and every entry's id are UUIDs and every sort order is a number; an id failure is reported as such; on success every entry is kept in order with its number |
| Validation.TrimOrEmpty | src/lib/validation/inquiry.ts:7-11 | the message is trimmed, empty when absent, and never longer than the input in code units |
| Validation.InquiryIssues | src/lib/validation/inquiry.ts:3-12 | no issue exactly when every rule holds; the name is reported exactly when shorter than 2 UTF-16 code units, the message exactly when longer than 4000 |
| Validation.TrimOrEmptyStable | src/lib/validation/inquiry.ts:11 | trimming a trimmed message again keeps it |
| Validation.ParsePublicInquiry | src/lib/validation/inquiry.ts:3-12 | success exactly when the animal id is a UUID, the name has at least 2 UTF-16 code units, the email is valid and the untrimmed message at most 4000; on success the message is trimmed and the rest kept |
| Validation.PublicInquiryRoundTrip | src/lib/validation/inquiry.ts:3-12 | a parsed inquiry submitted again parses to itself |
| Validation.ParseInquiryStatus | src/lib/validation/inquiry.ts:14-17 | an accepted name is the name of the status it yields |
| Validation.InquiryStatusNames | src/lib/validation/inquiry.ts:14-17 | exactly the seven status names are accepted, each to its own status |
| Validation.ParseInquiryStatusUpdate | src/lib/validation/inquiry.ts:14-17 | success exactly when the id is a UUID and the status one of the seven; a bad status is reported as such |
| Validation.ParseInquiryNote | src/lib/validation/inquiry.ts:19-22 | success exactly when the id is a UUID and the body has 1 to 4000 UTF-16 code units; the body is kept as written |
| Validation.BlankNoteAccepted | src/lib/validation/inquiry.ts:21 | a note of one space is accepted while an empty one is refused: the length is not measured after trimming |
| Validation.AstralNameAccepted | src/lib/validation/inquiry.ts:5 | lengths are JavaScript code units: a one-character emoji name counts 2 and passes the two-character minimum |
| Validation.ParseRole | src/lib/validation/team.ts:5 | exactly `owner`, `admin` and `staff` are accepted, each to the role of that name |
| Validation.RoleRoundTrip | src/lib/validation/team.ts:5 | every role's name parses back to it |
| Validation.ParseInvitation | src/lib/validation/team.ts:3-6 | success exactly when the email is valid and the role known; each failing field is reported exactly when it fails |
| Validation.ParseTemplate | src/lib/validation/team.ts:8-12 | success exactly when the name has 2 to 100 UTF-16 code units, the subject 2 to 200 and the body at least 2; each failing field is reported exactly when it fails; the fields are kept as written |
| Cleanup.ProvidedToken | src/routes/api/admin/cleanup-tokens/+server.ts:7 | a present header token wins, even an empty one; the query token is used only without a header |
| Cleanup.Cutoff | src/routes/api/admin/cleanup-tokens/+server.ts:13 | the cutoff lies strictly before now (thirty days earlier) |
| Cleanup.CountCandidates | src/routes/api/admin/cleanup-tokens/+server.ts:17-20 | the count of stale rows never exceeds the rows |
| Cleanup.Survivors | src/routes/api/admin/cleanup-tokens/+server.ts:31-35 | a row survives the delete exactly when it is not stale: neither expired nor revoked before the cutoff, a null column never matching |
| Cleanup.SurvivorsCount | src/routes/api/admin/cleanup-tokens/+server.ts:17-35 | the rows kept and the rows counted add up to all rows: each row is deleted and counted, or kept |
| Cleanup.Get | src/routes/api/admin/cleanup-tokens/+server.ts:6-43 | unauthorised requests get 401 and change nothing; only a real run changes the table; a dry run (unless the parameter is "0" or "false") reports the stale count; a real run keeps exactly the survivors and reports the stale count; the cutoff is now less thirty days |
| Cleanup.CleanupRemovesExactlyCandidates | src/routes/api/admin/cleanup-tokens/+server.ts:31-42 | after a real run no stale row remains, every fresh row is kept, and the count reported plus the rows left equals the rows before |
| Cleanup.SurvivorsIdempotent | src/routes/api/admin/cleanup-tokens/+server.ts:31-35 | purging again with the same cutoff deletes nothing more |
| Cleanup.HeaderTakesPrecedence | src/routes/api/admin/cleanup-tokens/+server.ts:7-10 | an empty header token is refused even alongside a correct query token, while a correct query token alone is accepted |
| Strings.Split | src/lib/utils/form.ts:4 | `split` yields at least one piece, no piece holds the separator, and joining the pieces with it gives back the input |
| Strings.SplitJoin | src/lib/utils/form.ts:4 | pieces free of the separator, joined with it, split back into the same pieces |
| Strings.Trim | src/lib/utils/form.ts:5 | a trimmed text has no whitespace at either end and is no longer than the input |
| Strings.TrimOfTrimmed | src/lib/utils/form.ts:5 | trimming a text with no whitespace at either end changes nothing |
| Strings.Utf16Len | src/lib/validation/inquiry.ts:5-9 | `length` counts one or two UTF-16 code units per character, so it lies between the character count and twice it |
| Strings.TrimUtf16Len | src/lib/validation/inquiry.ts:7-11 | trimming never adds code units |
| Strings.Lower | src/lib/utils/form.ts:11 | `toLowerCase` keeps the length and lowers each character in place |
| Strings.LowerIdempotent | src/lib/utils/form.ts:11 | lower-casing twice is lower-casing once |
| Js.ToStr | src/routes/api/saved-search/+server.ts:16-19 | `String(v)` of a string is the string itself |
| Js.ToStrEmpty | src/routes/api/saved-search/+server.ts:21-24 | `String(v)` is empty only for the empty string or an array |
| Js.Get | src/routes/api/saved-search/+server.ts:16 | reading a property throws exactly on `null`, and reads an object's own field |
| Js.GetOpt | src/routes/api/webhooks/stripe/+server.ts:25-27 | optional chaining on `null` is undefined and otherwise reads like a plain property access |
| Js.Coalesce | src/routes/api/saved-search/+server.ts:16-25 | `a ?? b` is `a` unless it is undefined or null, and `b` then |

## Left out

- The calls to Supabase, Stripe and Resend, sessions, cookies and logging: they are I/O. Their answers are parameters.
- `listMembers` (src/lib/server/team.ts:8-28): an RPC with a fallback join over `auth.users`. Neither is visible here, and there is no logic of its own to model.
- `resendInvitation` (src/lib/server/team.ts:114-116): a single-row read with no logic.
- `photoUploadSchema` (src/lib/validation/animal.ts:37-40): its only rule is that the value is a `File` instance, a runtime type that has no counterpart in the model.
- The signup page's `load` (src/routes/auth/signup/+page.server.ts:23-29): a redirect of a signed-in user, with nothing to state beyond its one branch.
- The HTML bodies of the two email templates: only the subjects and the plain-text bodies are modelled. The HTML repeats the same fields with markup.
- `encodeURIComponent` of the login return path: the encoded path is the parameter `returnTo`.
- The browser side of favourites (store wiring, `localStorage`): only the pure update is modelled.
- Floating point: page numbers, sizes, sort orders and timestamps are integers. A fractional `current_period_end` is not modelled.
- Zod's `.email()`, `.url()` and `.uuid()` are predicate parameters. An issue is reported per field, and its message is not modelled.
- The inquiry status enum of the generated database types (`new | responded | closed`) is stale. The seven-value schema enum is modelled instead.
- The test that imports `buildReplyToHeader` from the mail module refers to a function that does not exist there. The analogous behaviour is `Email.ReplyToForRescue`.
- Strings.Lower: lower-cases ASCII letters only, because Unicode case mapping is not modelled. This affects `toLowerCase` in slugs (`buildSlug` and the onboarding and signup slug candidates, so the "ASCII letter or digit" conditions of `Slug.LowerHasSlugChar`, `Slug.SlugifyShape` and `Slug.BuildSlugFallback` hold only under this reading), form parsing, the allow-list, saved searches, the webhook and the species filters.
- Sample.StrLtTotal: `localeCompare` is taken as character (code point) order, because locale collation is not modelled.
- Animals.Matching: treats `ilike` as equality ignoring ASCII case, because `%` and `_` wildcards in the filter are not modelled.
- Animals.ListPublicAnimals: the store's ordering by status, creation time and photo order is taken as the order of the input table rather than re-sorted.
- Team.Accept: `.eq('accepted_at', null)` is taken as "accepted_at is null", which is what the lookup evidently intends. A PostgREST equality with null may not match any row at all.
- Team.Create: the store-assigned id, creation time and expiry are parameters, so the contract says nothing about the default expiry.
- Profiles.UpsertIdempotent: states idempotence only after a row was actually inserted. Before that, a second run may insert where the first one failed.
- Stripe.PeriodEnd: handles integer seconds only. A truthy value that is neither a number nor a boolean is taken to throw (`WebhookThrew`), though `* 1000` coerces numeric strings and one-element arrays to valid dates; a value that really makes `Date` throw is also `WebhookThrew`, with no message.
- Stripe.Webhook: an uncaught exception (`toLowerCase` on a non-string, an invalid date) is the single outcome `WebhookThrew`. The framework's 500 page is not modelled.
- `getServiceSupabase()` throws when the service-role settings are missing. The webhook models this as `serviceConfigured`; the cleanup endpoint, the team functions, onboarding, signup and photo upload approximate it by their store-error parameters (`countError`, `lookupError`, `fault(0)`, `uploadFails`), whose outcomes are returned responses rather than an uncaught 500. The saved-search, shortlist and revoke handlers catch the throw and are modelled exactly.
