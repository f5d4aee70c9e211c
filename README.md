# FoodBridge front end: a Dafny model of its rules

FoodBridge is a React front end for a food-donation service. Donors post donations; receivers browse, filter and claim them on a list, on a Leaflet map and on a detail page. This project models the rules that the components apply to `Donation` and `User` records:

- **Availability summaries.** Donation counts and claim rates, as the map panel and the profile page compute them. Also the profile's food-type histogram.
- **Map derivations.** Geocoding enrichment, the map centre, the cluster class, and which statistics the panel shows. The detail page's fitted bounds also belong here.
- **The listing.** Its five-way filter, the stable in-place sorts by creation time, and its counters.
- **The two donation forms.** The three-step page with its claimed-donation warning, and the create/edit dialog. This covers validation, prefill, the request each one sends and the error-message chain.
- **Visibility and permissions.** On the detail page, the donation card, the header navigation and the route guard.
- **Small utilities.** The ordered statistics query, the avatar URL and initials, the place-type classifier, the address input's fetch guards, the admin delete flow, and the home page's animated counters.

Each source module becomes one Dafny module, and the shared pieces have modules of their own:

- `Common`: an `Option` type, plus JavaScript's `trim`, ASCII `toLowerCase`, `includes`, decimal `parseInt` and integer `toString`.
- `Types`: the records. Coordinates are `Option<real>`, and "truthy" means present and non-zero.
- `Stats`: the summary that three components compute the same way.
- `Uri`: `encodeURIComponent` and the form serialiser of `URLSearchParams`.
- `Forms`: the validation, the requests and the error chain that both forms share.

Some code changes component state, and that code is written as classes whose methods state the whole new state:
- the stepper page;
- the dialog;
- the map component;
- the address input;
- the admin dashboard.

Collaborators the code calls are parameters:
- the geocoder;
- the Haversine distance;
- number formatting;
- the clock;
- the Places service's answers;
- the server's answer to a save or a delete (success, or rejection with field errors).

## Model

| member | source | states |
|---|---|---|
| Types.WithCoords | src/components/DonationsMapLeaflet.tsx:167 | keeps exactly the donations whose latitude and longitude are both truthy, so a coordinate of 0 excludes the donation |
| Stats.CountAvailable | src/components/DonationsMapLeaflet.tsx:168 | the unclaimed count is at most the list length |
| Stats.CountClaimed | src/components/DonationsMapLeaflet.tsx:169 | the claimed count is at most the list length |
| Stats.AvailablePlusClaimed | src/components/DonationsMapLeaflet.tsx:168-170 | every donation is counted once, as available or as claimed |
| Stats.ClaimRate | src/components/DonationsMapLeaflet.tsx:171 | 0 when the total is 0; otherwise rate × total = claimed × 100, and it lies in [0, 100] when claimed ≤ total |
| Stats.Summarize | src/components/DonationsMapLeaflet.tsx:166-179 | total is the list length; available + claimed = total; the rate is 0 for an empty list, otherwise claimed/total·100, and always in [0, 100] |
| Stats.ClaimRateExtremes | src/pages/UserProfilePage.tsx:109 | a non-empty list with nothing claimed has rate 0; one with everything claimed has rate 100 |
| DonationsMap.Enrich | src/components/DonationsMapLeaflet.tsx:101-118 | only latitude and longitude can change; the donation is unchanged when it already has coordinates, has no location, or the geocoder finds nothing; otherwise it gets the geocoder's point |
| DonationsMap.EnrichAll | src/components/DonationsMapLeaflet.tsx:100-119 | one result per donation, in order, each the enrichment of its donation |
| DonationsMap.EnrichIdempotent | src/components/DonationsMapLeaflet.tsx:100-119 | enriching an enriched list changes nothing, given a geocoder that answers the same address the same way |
| DonationsMap.EnrichCoords | src/components/DonationsMapLeaflet.tsx:102-115 | coordinates are never lost; a donation still without them had none, and either had no location or was not found |
| DonationsMap.LocalSummary | src/components/DonationsMapLeaflet.tsx:166-179 | the summary of the donations with truthy coordinates: available + claimed = total, rate in [0, 100] |
| DonationsMap.IgnoresDonationWithoutCoords | src/components/DonationsMapLeaflet.tsx:167 | inserting a donation without truthy coordinates anywhere leaves the local summary as it was |
| DonationsMap.FallbackSnapshot | src/components/DonationsMapLeaflet.tsx:143-161 | the fallback summary is the local summary, consistent and with its rate in [0, 100]; food types, clusters and recent activity are empty; the zoom level is the map's |
| DonationsMap.FallbackShowsLocal | src/components/DonationsMapLeaflet.tsx:143-161 | on the component, once the fallback snapshot is stored, the rendered panel (the per-field `||` of `Shown`) is visible and equals the local summary |
| DonationsMap.ViewportFilters | src/components/DonationsMapLeaflet.tsx:133-139 | the request bounds are the viewport's south, north, west and east, and the zoom is its zoom |
| DonationsMap.ViewportRequestKeys | src/components/DonationsMapLeaflet.tsx:133-139 | the viewport request sends all five query keys |
| DonationsMap.ClusterSizeOf | src/components/DonationsMapLeaflet.tsx:218-227 | small iff the count is below 5, medium iff it is in [5, 15), large iff it is 15 or more |
| DonationsMap.ClusterClassName | src/components/DonationsMapLeaflet.tsx:219-235 | the name starts with `custom-marker-cluster marker-cluster-`, and the word after it is `small` iff the count is below 5, `medium` iff it is in [5, 15), `large` iff it is 15 or more |
| DonationsMap.ClusterClassNamesDistinct | src/components/DonationsMapLeaflet.tsx:219-235 | two clusters get the same class name iff they fall in the same size class |
| DonationsMap.ClusterSizeMonotone | src/components/DonationsMapLeaflet.tsx:221-227 | a larger count never gets a smaller class |
| DonationsMap.FirstWithCoords | src/components/DonationsMapLeaflet.tsx:246 | the index of the first donation with truthy coordinates, or none when no donation has them |
| DonationsMap.MapCenter | src/components/DonationsMapLeaflet.tsx:242-252 | the user's location if known; else the first donation with truthy coordinates; else Boston (42.3601, -71.0589) |
| DonationsMap.ZoomMatchesCenter | src/components/DonationsMapLeaflet.tsx:347-348 | the map opens at zoom 12 iff it is centred on the user; otherwise at zoom 10 on a donation with truthy coordinates or on Boston |
| DonationsMap.OrCount | src/components/DonationsMapLeaflet.tsx:451 | the shown count is 0 iff both the remote and the local count are falsy; a truthy remote count is shown, a falsy one gives the local count |
| DonationsMap.OrRate | src/components/DonationsMapLeaflet.tsx:460 | the shown rate is 0 iff both rates are falsy; a truthy remote rate is shown, a falsy one gives the local rate |
| DonationsMap.PanelAsWritten | src/components/DonationsMapLeaflet.tsx:451-460 | each of the four values is chosen on its own; the result equals the intended panel iff there is no remote summary or every falsy remote field is falsy locally too |
| DonationsMap.PanelAsWrittenMixes | src/components/DonationsMapLeaflet.tsx:451-460 | two consistent summaries can give a panel whose available + claimed differs from its total |
| DonationsMap.Panel | src/components/DonationsMapLeaflet.tsx:451-460 | one source whole, never a mix, so it is consistent (available + claimed = total, rate in [0, 100]) whenever its sources are |
| DonationsMap.PanelConsistent | src/components/DonationsMapLeaflet.tsx:451-460 | the corrected panel keeps available + claimed = total |
| DonationsMap.PanelAgrees | src/components/DonationsMapLeaflet.tsx:451-460 | the written and the corrected panel agree when no remote value is falsy |
| DonationsMap.PanelVisibleIff | src/components/DonationsMapLeaflet.tsx:432 | the panel is drawn iff the endpoint has answered or some enriched donation has truthy coordinates |
| DonationsMap.MapComponent.constructor | src/components/DonationsMapLeaflet.tsx:91-95 | no enriched donations, no statistics, zoom 10, no map yet |
| DonationsMap.MapComponent.ProcessDonations | src/components/DonationsMapLeaflet.tsx:98-126 | the enriched list replaces `donationsWithCoords`; nothing else changes |
| DonationsMap.MapComponent.MapReady | src/components/DonationsMapLeaflet.tsx:27-29 | the map instance is recorded; nothing else changes |
| DonationsMap.MapComponent.FetchAndSetStatistics | src/components/DonationsMapLeaflet.tsx:129-163 | without a map there is no request and no change; with one, the viewport request is sent and the statistics become the answer or, on failure, the fallback snapshot |
| DonationsMap.MapComponent.HandleMapChange | src/components/DonationsMapLeaflet.tsx:189-193 | without a map nothing changes; with one, the zoom is recorded and the statistics are fetched |
| DonationsMap.MapComponent.Markers | src/components/DonationsMapLeaflet.tsx:399-400 | the markers are exactly the enriched donations with truthy coordinates |
| DonationsMap.MapComponent.Shown | src/components/DonationsMapLeaflet.tsx:432-460 | shown iff statistics exist or an enriched donation has truthy coordinates; the values are the per-field `||` of lines 451-460; without statistics they are the local summary, and they are the remote summary when every falsy remote field is falsy locally |
| DonationsMap.ShownMixes | src/components/DonationsMapLeaflet.tsx:451-460 | a component whose server summary reports no claims, over local donations with a claim, shows counts that do not add up |
| DonationsPage.FilterList | src/pages/DonationsPage.tsx:234-263 | a donation is kept iff it satisfies all five predicates; the result is no longer than the input |
| DonationsPage.FilterListAppend | src/pages/DonationsPage.tsx:234-263 | filtering distributes over concatenation, so kept donations keep their order |
| DonationsPage.Keep | src/pages/DonationsPage.tsx:234-263 | definition: the conjunction of the five predicates below; FilterList keeps exactly the donations it accepts |
| DonationsPage.MatchesSearch | src/pages/DonationsPage.tsx:236-239 | definition: the lowered term is included in the lowered title, description or location; SearchOccurs, SearchIgnoresTermCase and EmptySearchMatchesAll state its meaning |
| DonationsPage.MatchesStatus | src/pages/DonationsPage.tsx:241-244 | definition: `all` keeps everything, `available` the unclaimed and `claimed` the claimed donations; StatusSplit states the lists it yields |
| DonationsPage.MatchesFoodType | src/pages/DonationsPage.tsx:246-248 | definition: `all`, or the donation's type equal to the filter ignoring ASCII case; UntypedOnlyMatchesAll states the untyped case |
| DonationsPage.MatchesExpiry | src/pages/DonationsPage.tsx:207-208 | definition: no expiry date, or the `all` filter, always passes; otherwise the calendar test, which is a parameter |
| DonationsPage.MatchesDistance | src/pages/DonationsPage.tsx:253-260 | definition: with a user location and truthy coordinates, the distance is within the slider; DistanceRejects states when it fails |
| DonationsPage.EmptySearchMatchesAll | src/pages/DonationsPage.tsx:236-239 | an empty search term matches every donation |
| DonationsPage.SearchIgnoresTermCase | src/pages/DonationsPage.tsx:236-239 | lowering the term does not change the match |
| DonationsPage.SearchOccurs | src/pages/DonationsPage.tsx:236-239 | a match means the lowered term occurs at some offset of the lowered title, description or location |
| DonationsPage.UntypedOnlyMatchesAll | src/pages/DonationsPage.tsx:246-248 | a donation without a food type matches iff the filter is `all` |
| DonationsPage.DistanceRejects | src/pages/DonationsPage.tsx:253-260 | the distance predicate rejects iff there is a user location, both coordinates are truthy, and the distance exceeds the slider |
| DonationsPage.DefaultsKeepAll | src/pages/DonationsPage.tsx:234-263 | with every filter at its default and no user location, the list is kept whole |
| DonationsPage.StatusSplit | src/pages/DonationsPage.tsx:241-244 | with the other filters at their defaults, `available` shows the available count, `claimed` the claimed count and `all` everything |
| DonationsPage.SwapDown | src/pages/DonationsPage.tsx:264-283 | exchanges two neighbours with different timestamps; a permutation that keeps ties in order |
| DonationsPage.InsertDown | src/pages/DonationsPage.tsx:264-283 | one insertion step extends the sorted prefix by one element, as a stable permutation |
| DonationsPage.SortByCreated | src/pages/DonationsPage.tsx:264-283 | the array ends sorted by the chosen timestamp order, is a permutation of the original, and keeps equal timestamps in their original order |
| DonationsPage.OrderOf | src/pages/DonationsPage.tsx:265-282 | `oldest` is ascending; `expiry`, `distance` and `title` are other orders; any other value is newest first |
| DonationsPage.Displayed | src/pages/DonationsPage.tsx:234-283 | the shown list is a permutation of the donations that pass the filter; for the timestamp orders it is sorted, and stable |
| DonationsPage.FetchSort | src/pages/DonationsPage.tsx:108-110 | the fetched list is sorted newest first, as a permutation, and stable: donations with equal timestamps keep the order the server sent |
| DonationsPage.Counters | src/pages/DonationsPage.tsx:285-286 | available + claimed is the length of the unfiltered list |
| UserProfile.DonationStats | src/pages/UserProfilePage.tsx:105-112 | total is the number of the user's donations; available + claimed = total; rate 0 for none, else claimed/total·100, and in [0, 100] |
| UserProfile.FoodTypeOf | src/pages/UserProfilePage.tsx:117 | a missing or empty type is `other`; any other type is itself |
| UserProfile.FoodTypeStats | src/pages/UserProfilePage.tsx:114-121 | the loop builds the histogram of the donations (for food types that are not `Object.prototype` names) |
| UserProfile.Histogram | src/pages/UserProfilePage.tsx:114-119 | definition: the tally of the types, one update per donation in order; HistogramWellFormed, HistogramSum, HistogramCount, HistogramKeys and HistogramPrefix state its meaning |
| UserProfile.HistogramWellFormed | src/pages/UserProfilePage.tsx:115-119 | no key twice, every count at least 1 |
| UserProfile.HistogramSum | src/pages/UserProfilePage.tsx:115-119 | the counts sum to the number of donations |
| UserProfile.HistogramCount | src/pages/UserProfilePage.tsx:116-118 | the count of a type is the number of donations of that type |
| UserProfile.HistogramKeys | src/pages/UserProfilePage.tsx:116-118 | the keys are exactly the types that occur |
| UserProfile.HistogramPrefix | src/pages/UserProfilePage.tsx:116-118 | keys keep the place where their first donation put them |
| UserProfile.OtherCount | src/pages/UserProfilePage.tsx:117 | `other` counts the donations with a missing or empty type plus those labelled `other` |
| UserProfile.FoodTypesCardShown | src/pages/UserProfilePage.tsx:266 | the Food Types card shows iff the user has a donation (for food types that are not `Object.prototype` names) |
| UserProfile.BumpLookup | src/pages/UserProfilePage.tsx:118 | one update adds one to its key's count and leaves every other count |
| UserProfile.BumpSum | src/pages/UserProfilePage.tsx:118 | one update adds one to the total |
| UserProfile.IsOwnProfile | src/pages/UserProfilePage.tsx:63 | own profile only for a signed-in user, and only on a route that parses back to that user's id; the comparison itself is on the decimal text |
| UserProfile.OwnProfileIffSameId | src/pages/UserProfilePage.tsx:63 | on a route written from an id, own profile iff the ids are equal |
| UserProfile.OwnProfileTextual | src/pages/UserProfilePage.tsx:63 | the comparison is textual: `07` parses to 7 but is not user 7's profile |
| UserProfile.OwnProfileParses | src/pages/UserProfilePage.tsx:63 | a matching route parses back to the user's id |
| UserProfile.SignedOutNotOwn | src/pages/UserProfilePage.tsx:63 | without a signed-in user no profile is one's own |
| Forms.PositiveIsNonBlank | src/components/DonationForm.tsx:105-106 | a quantity that parses to a positive number is never blank |
| Forms.PositiveQuantityText | src/components/DonationForm.tsx:48 | the text `toString` writes for a positive quantity passes the quantity check |
| Forms.QuantityAcceptsLeadingNumber | src/components/DonationForm.tsx:106 | `12 boxes` passes, because `parseInt` reads a leading number |
| Forms.QuantityRejectsZero | src/components/DonationForm.tsx:106 | `0` fails the check |
| Forms.QuantityRejectsNegative | src/components/DonationForm.tsx:106 | `-2` fails the check |
| Forms.QuantityRejectsWords | src/components/DonationForm.tsx:106 | text without a leading number fails the check |
| Forms.DonationPath | src/pages/DonationFormPage.tsx:148 | the path is `/donations/`, then the id, then `/` |
| Forms.DonationPathInjective | src/pages/DonationFormPage.tsx:148 | distinct ids give distinct paths |
| Forms.FirstMessage | src/pages/DonationFormPage.tsx:163 | the first message of a field when it is present and non-empty, else none |
| Forms.ErrorPriority | src/pages/DonationFormPage.tsx:162-168 | the message is the first present of title, description, quantity, location, then the fallback |
| Forms.ErrorMessageNonEmpty | src/pages/DonationFormPage.tsx:162-168 | the message is never empty, and without a response it is the fallback |
| Forms.ErrorMessageSource | src/components/DonationForm.tsx:89-95 | the message is one of the four first messages or the fallback |
| Forms.ErrorMessage | src/components/DonationForm.tsx:89-95 | definition: the first message of title, description, quantity, location, else the fallback; ErrorPriority, ErrorMessageNonEmpty and ErrorMessageSource state its meaning |
| DonationFormPage.FormData.With | src/pages/DonationFormPage.tsx:117-122 | the changed field gets the value, and every other field keeps its own |
| DonationFormPage.StepValidReadsOwnFields | src/pages/DonationFormPage.tsx:124-135 | a step's check does not read the fields of other steps |
| DonationFormPage.IsStepValid | src/pages/DonationFormPage.tsx:124-135 | definition: step 0 checks title and description, step 1 quantity and location, step 2 nothing; StepValidReadsOwnFields and StepOneQuantity state its meaning |
| DonationFormPage.Prefill | src/pages/DonationFormPage.tsx:90-97 | definition: the donation's fields as form text; PrefillRoundTrip and PrefillValid state its meaning |
| DonationFormPage.PrefillRoundTrip | src/pages/DonationFormPage.tsx:90-97 | saving a prefilled form unchanged sends the donation's own values, with a missing type or expiry as empty text |
| DonationFormPage.PrefillValid | src/pages/DonationFormPage.tsx:124-135 | prefilling from a donation with non-blank text and a positive quantity passes every step check |
| DonationFormPage.StepOneQuantity | src/pages/DonationFormPage.tsx:128-131 | a form that passes step 1 sends a positive quantity |
| DonationFormPage.FormPage.constructor | src/pages/DonationFormPage.tsx:61-75 | step 0, empty form, no details, not loading, no error, nothing open |
| DonationFormPage.FormPage.HandleNext | src/pages/DonationFormPage.tsx:104-111 | in edit mode on step 0 with a claimed donation it opens the warning; otherwise it adds 1 to the step; nothing else changes |
| DonationFormPage.FormPage.HandleBack | src/pages/DonationFormPage.tsx:113-115 | subtracts 1 from the step; nothing else changes |
| DonationFormPage.FormPage.HandleProceedWithEdit | src/pages/DonationFormPage.tsx:174-177 | closes the warning and adds 1 to the step |
| DonationFormPage.FormPage.HandleCancelWarning | src/pages/DonationFormPage.tsx:350 | closes the warning; the step stays |
| DonationFormPage.FormPage.HandleChange | src/pages/DonationFormPage.tsx:117-122 | only the named field of the form changes |
| DonationFormPage.FormPage.PressNext | src/pages/DonationFormPage.tsx:457-461 | an enabled Next keeps the step in [0, 2] and every passed step valid; it opens the warning or advances by exactly 1 |
| DonationFormPage.FormPage.PressBack | src/pages/DonationFormPage.tsx:440-443 | Back is disabled at step 0, so the step goes down by 1 and never goes negative |
| DonationFormPage.FormPage.PressProceed | src/pages/DonationFormPage.tsx:354 | from the warning the stepper moves to step 1 with the warning closed |
| DonationFormPage.FormPage.PressCancel | src/pages/DonationFormPage.tsx:350 | from the warning the stepper stays on step 0 |
| DonationFormPage.FormPage.TypeInto | src/pages/DonationFormPage.tsx:117-122 | typing into an input of the active step keeps every passed step valid |
| DonationFormPage.FormPage.FetchDonation | src/pages/DonationFormPage.tsx:85-102 | a loaded donation sets the details and the prefilled form; a failure sets the load error; an acceptable donation keeps the passed steps valid |
| DonationFormPage.FormPage.SubmitRequest | src/pages/DonationFormPage.tsx:142-152 | edit mode PUTs to the donation's path, create mode POSTs to the collection, with the parsed payload |
| DonationFormPage.FormPage.BeginSubmit | src/pages/DonationFormPage.tsx:137-152 | loading is set, the error cleared, and the request sent |
| DonationFormPage.FormPage.FinishSubmit | src/pages/DonationFormPage.tsx:155-171 | a save sets the success text for the mode and opens the notice; a rejection sets the chained error; loading ends either way |
| DonationFormPage.FormPage.PressSubmit | src/pages/DonationFormPage.tsx:447-452 | an enabled Submit sends non-blank title, description and location and a positive quantity |
| DonationForm.FormData.With | src/components/DonationForm.tsx:62-67 | the changed field gets the value, and every other field keeps its own |
| DonationForm.ValidPayload | src/components/DonationForm.tsx:101-109 | a valid form sends non-blank text and a positive quantity |
| DonationForm.ResetEmptyInvalid | src/components/DonationForm.tsx:51-58 | without a donation, or in create mode, the form resets to empty and is invalid |
| DonationForm.PrefillValidIff | src/components/DonationForm.tsx:44-50 | the prefilled form is valid iff the donation's text is non-blank and its quantity positive, and it sends the donation's values back |
| DonationForm.IsFormValid | src/components/DonationForm.tsx:101-108 | definition: non-blank title, description and location and a quantity that parses to a positive number; ValidPayload states what it guarantees of the request |
| DonationForm.ResetForm | src/components/DonationForm.tsx:44-58 | definition: the donation's fields in edit mode, else empty text; ResetEmptyInvalid and PrefillValidIff state its meaning |
| DonationForm.SubmitRequest | src/components/DonationForm.tsx:80-84 | create POSTs to the collection; edit PUTs to the donation's path; edit without a donation sends nothing |
| DonationForm.Dialog.constructor | src/components/DonationForm.tsx:34-41 | an empty form, not loading, no error |
| DonationForm.Dialog.Reset | src/components/DonationForm.tsx:43-60 | the form becomes the prefill or the empty form, and the error is cleared |
| DonationForm.Dialog.HandleChange | src/components/DonationForm.tsx:62-67 | only the named field changes |
| DonationForm.Dialog.BeginSubmit | src/components/DonationForm.tsx:71-84 | loading is set, the error cleared, and the request for the mode sent |
| DonationForm.Dialog.FinishSubmit | src/components/DonationForm.tsx:86-98 | on success `onSuccess` then `onClose`; on failure no callback and the chained error; loading ends |
| DonationForm.Dialog.HandleSubmit | src/components/DonationForm.tsx:69-99 | in edit mode without a donation nothing is sent and both callbacks run anyway |
| DonationForm.Dialog.PressSubmit | src/components/DonationForm.tsx:203 | Submit is enabled only when not loading and valid, so any request carries a non-blank title, description and location and a positive quantity |
| DonationDetail.FitsBothPoints | src/pages/DonationDetailPage.tsx:50-56 | with truthy user coordinates the bounds are the componentwise min and max, so SW ≤ NE and both points lie inside |
| DonationDetail.MapViewFor | src/pages/DonationDetailPage.tsx:49-60 | fits bounds iff both user coordinates are truthy, and the bounds then hold both points; otherwise centres on the donation at zoom 15 |
| DonationDetail.FittedBoxSmallest | src/pages/DonationDetailPage.tsx:52-55 | any box holding both points holds the fitted one |
| DonationDetail.CentresWithoutUser | src/pages/DonationDetailPage.tsx:57-60 | without truthy user coordinates the view centres on the donation at zoom 15 |
| DonationDetail.OwnerIff | src/pages/DonationDetailPage.tsx:261-263 | a signed-in user owns the donation iff its donor id is theirs; without a donor id, no edit and no delete |
| DonationDetail.IsOwner | src/pages/DonationDetailPage.tsx:261 | a donation without `donor_id` has no signed-in owner; signed out, exactly such donations count as owned |
| DonationDetail.CanDelete | src/pages/DonationDetailPage.tsx:263 | delete is offered to a signed-in user only for a donation whose donor id is theirs |
| DonationDetail.CanEdit | src/pages/DonationDetailPage.tsx:262 | edit is offered only where delete is, and never on a claimed donation |
| DonationDetail.ClaimShown | src/pages/DonationDetailPage.tsx:281 | claim never shows beside edit or delete, and on an unclaimed donation it shows iff edit does not |
| DonationDetail.ButtonsExclusive | src/pages/DonationDetailPage.tsx:281-300 | claim never shows with edit or delete; edit implies delete; an unclaimed donation shows exactly one of claim and edit; a claimed one shows neither |
| DonationDetail.DistanceTo | src/pages/DonationDetailPage.tsx:266-268 | a distance exists iff there is a user location and the donation's coordinates are truthy, and then it is the distance between them |
| DonationDetail.Round | src/pages/DonationDetailPage.tsx:179 | rounds to the nearest integer, halves up |
| DonationDetail.FormatDistance | src/pages/DonationDetailPage.tsx:177-182 | feet iff the distance is below 1 mile, otherwise miles |
| DonationDetail.FeetInRange | src/pages/DonationDetailPage.tsx:178-179 | a distance in [0, 1) shows between 0 and 5280 feet |
| DonationDetail.ZeroDistanceStrayText | src/pages/DonationDetailPage.tsx:478 | as written, a distance of 0 renders the text `0` instead of the row |
| DonationDetail.DistanceRowAsWritten | src/pages/DonationDetailPage.tsx:478 | the row shows iff a nonzero distance exists, with its formatted text; bare text shows iff the distance is exactly 0 |
| DonationDetail.DistanceRow | src/pages/DonationDetailPage.tsx:478 | the corrected row shows iff a distance exists, with its formatted text, and never renders stray text |
| DonationDetail.DistanceRowAgrees | src/pages/DonationDetailPage.tsx:619 | the corrected row agrees with the written one except at 0, which it shows as 0 ft |
| DonationDetail.DistanceRowShown | src/pages/DonationDetailPage.tsx:266-268 | the corrected row shows iff the user's location is known and the donation has truthy coordinates |
| DonationDetail.DistanceRowAsWrittenShown | src/pages/DonationDetailPage.tsx:478 | the row as written shows iff, in addition, the distance is not exactly 0; at distance 0 the bare text `0` shows |
| DonationCard.FormatDate | src/components/DonationCard.tsx:39-48 | just now below an hour, including future dates; whole hours below 24; yesterday below 48; otherwise the locale date |
| DonationCard.LabelText | src/components/DonationCard.tsx:39-48 | every bucket but the locale date has a text; an hours label is the hour count, which parses back, followed by `h ago` |
| DonationCard.FormatDateMonotone | src/components/DonationCard.tsx:42-47 | as time passes the label never moves to a more recent bucket |
| DonationCard.StatusLabel | src/components/DonationCard.tsx:79 | `Claimed` iff claimed, `Available` iff not |
| DonationCard.StatusColor | src/components/DonationCard.tsx:50-52 | `success` iff claimed, `primary` iff not |
| DonationCard.CardButtons | src/components/DonationCard.tsx:152-217 | for a receiver exactly one of claim and already-claimed shows; claim never shows with edit, delete or already-claimed; signed out, nothing shows |
| DonationCard.ClaimShown | src/components/DonationCard.tsx:152 | claim shows only to a signed-in user and never beside the already-claimed button |
| DonationCard.IsDonorOwner | src/components/DonationCard.tsx:165 | the donor who owns the card is never offered claim |
| DonationCard.EditShown | src/components/DonationCard.tsx:165-167 | edit shows only with an `onEdit` callback, to the donor owner, and never beside claim |
| DonationCard.DeleteShown | src/components/DonationCard.tsx:165-189 | delete shows only with an `onDelete` callback, to the donor owner, and never beside claim |
| DonationCard.AlreadyClaimedShown | src/components/DonationCard.tsx:207 | definition: the disabled button shows for every claimed donation, whoever is viewing; CardButtons relates it to claim |
| DonationCard.CardEditsClaimed | src/components/DonationCard.tsx:165-185 | the card offers edit to the donor of a claimed donation, beside its already-claimed button |
| DonationService.StatisticsParams | src/api/donationService.ts:47-53 | the appended entries are one per defined filter, in the order of the five keys |
| DonationService.StatisticsPath | src/api/donationService.ts:46-55 | the path is `/donations/statistics/?` followed by the serialised entries |
| DonationService.ParamsSound | src/api/donationService.ts:49-53 | every entry belongs to a defined filter and carries its formatted value |
| DonationService.ParamsComplete | src/api/donationService.ts:49-53 | a key has an entry iff its filter is defined |
| DonationService.ParamsOrdered | src/api/donationService.ts:49-53 | entries follow the key order, so no key appears twice |
| DonationService.StatisticsParamsSpec | src/api/donationService.ts:49-53 | entries come in the order lat_min, lat_max, lng_min, lng_max, zoom, at most once each, and exactly for the defined filters |
| DonationService.ZeroBoundIncluded | src/api/donationService.ts:49 | a bound of 0 is sent, as the test is for undefined and not for truthiness |
| DonationService.NoFiltersPath | src/api/donationService.ts:55 | no filters give `/donations/statistics/?` with an empty query |
| Uri.EncodeUriComponent | src/utils/avatarUtils.ts:6 | the output holds only unreserved characters and percent signs |
| Uri.UriRoundTrip | src/utils/avatarUtils.ts:6 | decoding the encoded username gives it back |
| Uri.Utf8RoundTrip | src/utils/avatarUtils.ts:6 | UTF-8 decoding undoes UTF-8 encoding |
| Uri.FormEncode | src/api/donationService.ts:55 | the output holds only form-unreserved characters, `+` and percent signs |
| Avatar.SeedRecoverable | src/utils/avatarUtils.ts:4-7 | the URL is the fixed prefix, the style, the seed key, the encoded username and the fixed suffix, and the username can be read back |
| Avatar.AvatarUrl | src/utils/avatarUtils.ts:4-7 | definition: the style's head, the encoded username and the fixed suffix; SeedRecoverable and AvatarUrlInjective state its meaning |
| Avatar.AvatarUrlInjective | src/utils/avatarUtils.ts:4-7 | different usernames give different URLs |
| Avatar.AvatarPropsFor | src/utils/avatarUtils.ts:10-15 | `src` is the default `personas` URL, whose seed decodes back to the username; `alt` begins with that username |
| Avatar.PropsSeed | src/utils/avatarUtils.ts:10-15 | `src` starts with the `personas` URL head up to the seed, and `alt` starts with the username |
| Avatar.CharCode | src/utils/avatarUtils.ts:28 | a UTF-16 code unit; the character itself inside the Basic Multilingual Plane |
| Avatar.ColorIndex | src/utils/avatarUtils.ts:28-29 | defined iff the username is non-empty, and then the first code unit mod 20, inside the palette |
| Avatar.InitialsShape | src/utils/avatarUtils.ts:31-38 | a non-empty name gets its upper-cased first character and a palette colour; the empty name gets neither |
| Avatar.InitialsAvatarFor | src/utils/avatarUtils.ts:31-38 | definition: the upper-cased first character and the colour its code unit selects; InitialsShape and InitialsFirstCharOnly state its meaning |
| Avatar.InitialsFirstCharOnly | src/utils/avatarUtils.ts:28-32 | usernames with the same first character get the same avatar |
| Avatar.CaseChangesColor | src/utils/avatarUtils.ts:28-32 | `alice` and `Alina` share the initial A but get different colours |
| Header.NavigationShape | src/components/Header.tsx:75-80 | Home and Donations first; Create iff donor; Admin iff superuser, and last; 2 to 4 items |
| Header.NavigationItems | src/components/Header.tsx:75-80 | definition: Home and Donations, then Create for a donor and Admin for a superuser; NavigationShape states its meaning |
| Header.IsActiveRoute | src/components/Header.tsx:71-73 | definition: the pathname equals the item's path; AtMostOneActive states that it highlights at most one item |
| Header.AtMostOneActive | src/components/Header.tsx:71-73 | item paths are distinct, so exact matching highlights at most one item |
| Header.RoleColor | src/components/Header.tsx:63-65 | `primary` iff the role is donor, `secondary` otherwise |
| Header.RoleLabel | src/components/Header.tsx:190 | the first character upper-cased and the rest unchanged |
| Header.RoleLabelProperties | src/components/Header.tsx:299 | capitalising twice is capitalising once, and lowering the label's first letter gives back a role that did not start upper-case |
| Header.RoleLabels | src/components/Header.tsx:190 | `donor` shows as `Donor` and `receiver` as `Receiver` |
| Header.DesktopNav | src/components/Header.tsx:278 | desktop items are drawn iff not on mobile and signed in, and then they are the navigation items |
| LocationInput.Classify | src/components/LocationInput.tsx:265-272 | the kind of the first priority type present, and other iff none is present |
| LocationInput.IconAndLabelAgree | src/components/LocationInput.tsx:256-263 | the icon and the label both follow the same classification |
| LocationInput.PlaceTypeIcon | src/components/LocationInput.tsx:256-263 | definition: the icon of the first priority type present; IconAndLabelAgree states that it follows Classify |
| LocationInput.PlaceTypeLabel | src/components/LocationInput.tsx:265-272 | definition: the label of the first priority type present; IconAndLabelAgree and LabelDeterminesIcon state its meaning |
| LocationInput.LabelDeterminesIcon | src/components/LocationInput.tsx:256-272 | equal labels give equal icons |
| LocationInput.IconNotInjective | src/components/LocationInput.tsx:258-262 | a street address and an unknown place share the pin icon but have different labels |
| LocationInput.Utf16Length | src/components/LocationInput.tsx:177 | the UTF-16 length lies between the number of characters and twice that |
| LocationInput.FetchedPlaces | src/components/LocationInput.tsx:153-173 | places are stored only with a service, non-blank input, OK status and results, and then they are those results |
| LocationInput.BlankInputClears | src/components/LocationInput.tsx:154-157 | whitespace-only input never yields places |
| LocationInput.Input.constructor | src/components/LocationInput.tsx:63-66 | the `value` prop as the text (the effect of lines 144-147 folded into the first render), no places, Maps not loaded, no service |
| LocationInput.Input.LoadMaps | src/components/LocationInput.tsx:110 | Maps becomes loaded; the text, places and service stay; the invariant (a service only once loaded, places only with a service) is kept |
| LocationInput.Input.InitServices | src/components/LocationInput.tsx:137-142 | the service exists once Maps is loaded and the attribution element is mounted; the invariant is kept |
| LocationInput.Input.FetchPlaces | src/components/LocationInput.tsx:153-173 | the places become the fetched places; nothing else changes; the invariant is kept |
| LocationInput.Input.HandleInputChange | src/components/LocationInput.tsx:175-182 | the text is always stored; with Maps loaded and more than two code units the places are fetched, otherwise cleared; the invariant is kept |
| LocationInput.Input.SyncValue | src/components/LocationInput.tsx:144-147 | the controlled value replaces the text; the invariant is kept |
| AdminDashboard.WithoutId | src/pages/AdminDashboardPage.tsx:71 | keeps exactly the donations whose id differs |
| AdminDashboard.WithoutIdLength | src/pages/AdminDashboardPage.tsx:71 | the length drops by the number of donations with the id |
| AdminDashboard.WithoutIdAppend | src/pages/AdminDashboardPage.tsx:71 | filtering distributes over concatenation, so the rest keep their order |
| AdminDashboard.WithoutAbsentId | src/pages/AdminDashboardPage.tsx:71 | with no donation carrying the id, the list is unchanged |
| AdminDashboard.DeletedGone | src/pages/AdminDashboardPage.tsx:71 | no donation with the deleted id remains, every other one does, and the length drops by the matches |
| AdminDashboard.Dashboard.SelectForDelete | src/pages/AdminDashboardPage.tsx:215-216 | the donation is selected and the dialog opens |
| AdminDashboard.Dashboard.CloseDialog | src/pages/AdminDashboardPage.tsx:268 | the dialog closes and the selection stays |
| AdminDashboard.Dashboard.HandleDeleteDonation | src/pages/AdminDashboardPage.tsx:66-78 | without a selection nothing happens; on success the donations with the id go, the dialog closes and the selection clears; on failure only the error is set |
| ProtectedRoute.GuardOutcomes | src/components/ProtectedRoute.tsx:16-27 | spinner iff loading; redirect to `/login` iff loaded without a user; the page iff loaded with one |
| ProtectedRoute.Guard | src/components/ProtectedRoute.tsx:16-27 | definition: spinner while loading, `/login` redirect without a user, else the page; GuardOutcomes states each case as an iff |
| ProtectedRoute.GuardedDetailOwner | src/components/ProtectedRoute.tsx:22-27 | a guarded page always has a user, so the owner test compares real ids |
| HomeStats.Digits | src/pages/HomePage.tsx:280 | only digits, and no longer than the stat string |
| HomeStats.SplitProperties | src/pages/HomePage.tsx:280 | the suffix has no digit; digits and suffix are both subsequences of the string, and their lengths sum to its length |
| HomeStats.Suffix | src/pages/HomePage.tsx:280 | never longer than the stat string; SplitProperties states that it is the digit-free part |
| HomeStats.End | src/pages/HomePage.tsx:280 | definition: `parseInt` of the digits; EndValue and EndWithoutDigits state its value |
| HomeStats.EndValue | src/pages/HomePage.tsx:280 | with a digit, `end` is the number the digits spell |
| HomeStats.EndWithoutDigits | src/pages/HomePage.tsx:280 | without digits `end` is NaN |
| HomeStats.DonationsStat | src/pages/HomePage.tsx:58 | `1,000+` counts to 1000 with the suffix `,+` |
| HomeStats.RecipientsStat | src/pages/HomePage.tsx:59 | `500+` counts to 500 with the suffix `+` |
| HomeStats.CommunitiesStat | src/pages/HomePage.tsx:60 | `50+` counts to 50 with the suffix `+` |
| HomeStats.SatisfactionStat | src/pages/HomePage.tsx:61 | `95%` counts to 95 with the suffix `%` |
| HomeStats.DonationsSuffixRepeatsSeparator | src/pages/HomePage.tsx:280 | as written, the suffix of `1,000+` is two characters and starts with the separator `,` that the counter already uses for grouping |
| HomeStats.CounterSuffix | src/pages/HomePage.tsx:280 | the corrected suffix: no longer than the written one, with no digit and no separator |
| HomeStats.CounterSuffixAgrees | src/pages/HomePage.tsx:280 | on a stat string without a separator the corrected suffix equals the written one |
| HomeStats.DonationsCounterSuffix | src/pages/HomePage.tsx:58 | the corrected suffix of `1,000+` is `+` |
| Common.ToLower | src/pages/DonationsPage.tsx:237 | `toLowerCase`: the same length, each character mapped by the ASCII lower-case table |
| Common.TrimStart | src/pages/DonationFormPage.tsx:127 | drops exactly the leading whitespace: the result is a suffix, what it drops is whitespace, and it does not start with whitespace |
| Common.TrimEnd | src/pages/DonationFormPage.tsx:127 | drops exactly the trailing whitespace: the result is a prefix, what it drops is whitespace, and it does not end with whitespace |
| Common.Trim | src/pages/DonationFormPage.tsx:127 | `trim`: never longer, and a non-empty result neither starts nor ends with whitespace; TrimEmptyIff states when it is empty |
| Common.Includes | src/pages/DonationsPage.tsx:237-239 | definition of `includes`; IncludesIff states its meaning |
| Common.ToLowerIdempotent | src/pages/DonationsPage.tsx:237 | lowering twice is lowering once |
| Common.TrimEmptyIff | src/pages/DonationFormPage.tsx:127 | a trimmed string is empty iff every character is whitespace |
| Common.IncludesIff | src/pages/DonationsPage.tsx:237-239 | `includes` holds iff the substring occurs at some offset |
| Common.IntToString | src/pages/DonationFormPage.tsx:93 | the decimal digits of the number, with a minus sign when it is negative |
| Common.ParseIntToString | src/pages/DonationFormPage.tsx:144 | `parseInt` reads back what `toString` writes, for every integer |
| Common.ParseInt | src/pages/DonationFormPage.tsx:144 | definition: optional leading whitespace and sign, then the longest run of decimal digits; ParseIntToString and the quantity lemmas state its meaning |

## Left out

- The Haversine distance, geocoding, and the statistics and save requests are function or outcome parameters. The Nominatim fetch, axios, localStorage and the authentication context are not part of this model.
- Timers and concurrency are not modelled: the 300 ms debounce, `Promise.all`, the `setTimeout` navigation and the order in which asynchronous answers arrive. The map's statistics request and the stepper's save are each modelled as one atomic call.
- Number formatting (`toFixed`, `toString` of a real) is a parameter, and `toLocaleDateString` is a label without text.
- Floating point is not modelled. Coordinates and rates are `real`, and NaN and Infinity do not arise.
- `checkExpiryFilter` calendar arithmetic is a predicate parameter. Only its missing-date and `all` branches are modelled.
- DonationsPage.Displayed: for `expiry`, `distance` and `title` it states only that the list is a permutation of the filtered donations. Those comparators are not total orders (they return 0 for a missing value and compute Infinity minus Infinity), and `localeCompare` depends on the locale.
- The sorts work in place on arrays. `Displayed` copies the filtered sequence into a fresh array first, so aliasing with the component's state is not modelled.
- Case mapping covers ASCII letters only. Unicode case folding and the lone surrogate `charAt(0)` returns for a character beyond the Basic Multilingual Plane are not modelled; the whole character goes through `UpperChar`.
- `parseInt` handles decimal digits only, with leading whitespace and an optional sign. The `0x` prefix, other radices and the infinity limit of very long numerals are not modelled.
- UserProfile.FoodTypeStats: keys are kept in insertion order. JavaScript lists integer-like keys first, and that ordering is not modelled. The tally is an association list, not a plain object, so names inherited from `Object.prototype` are not modelled: for a type `constructor` the source computes `(Object || 0) + 1`, a string, where the model counts 1, and a type `__proto__` is never stored as a key. No input of this UI produces such a type; the food types of DonationsPage.tsx:71-84 contain none.
- UserProfile.FoodTypesCardShown: it holds for food types that are not names of `Object.prototype`. Donations whose only type is `__proto__` leave `Object.keys` empty at UserProfilePage.tsx:266, and the source hides the card, where the model shows it.
- CountUp's own rendering (the animation and the grouping of `end` with its `separator`) is not modelled. The suffix finding rests on it writing 1000 as `1,000`.
- Marker clustering belongs to the clustering library. Only the size class of a cluster is modelled.
- The admin dashboard's `fetchAdminData`, the address input's `handlePlaceSelect` and `getCurrentLocation`, and the Google script loading are not modelled, beyond the `isGoogleMapsLoaded` flag.
- The detail page's claim, delete and navigation handlers are not modelled. Only the visibility rules and the distance rows are.
- Pages and components with no rules of their own are not part of this model: layout, footer, login, registration, profile editing, contact, about, the other map components and the notifications.
- LocationInput.Input.constructor: the input starts with the `value` prop as its text. The source starts from `''` (LocationInput.tsx:63) and copies `value` in an effect (lines 144-147). The model folds that first render into the constructor, so the one render with empty text is not modelled; later changes of `value` go through `SyncValue`.
- DonationsMap.EnrichIdempotent: it holds because the geocoder is a pure function of the address. A real lookup service can answer a second request differently, and that is not modelled.
- The map's `currentZoom` state starts at 10 even when the map opens at zoom 12 (DonationsMapLeaflet.tsx:92 and 348). The first map event corrects it; the model keeps the two values apart in the same way.
- DonationDetail.OwnerIff: it is stated for a signed-in user. Signed out, `undefined === undefined` would make anyone the owner of a donation without a donor id, but the detail route is guarded (see ProtectedRoute.GuardedDetailOwner).

## Findings

| source | as written | input that shows it | evidently intended | confidence | as-written member | corrected member |
|---|---|---|---|---|---|---|
| src/components/DonationsMapLeaflet.tsx:451-460 | each panel value is `remote || local`, chosen separately, so a remote 0 is replaced by the local value | remote summary total 5, available 5, claimed 0, rate 0; local total 3, available 1, claimed 2: the panel shows total 5, available 5, claimed 2 | the remote summary whole when there is one, else the local one, so available + claimed = total | not executed | DonationsMap.PanelAsWrittenMixes | DonationsMap.PanelConsistent |
| src/pages/DonationDetailPage.tsx:478 | `{distance && (...)}` renders a distance of exactly 0 as the text `0`; the same guard is at lines 533 and 619 | a user standing at the donation's coordinates, so the distance is 0 | the distance row shown as 0 ft whenever a distance was computed | not executed | DonationDetail.ZeroDistanceStrayText | DonationDetail.DistanceRowAgrees |
| src/pages/HomePage.tsx:280 | the suffix removes only the digits, so `1,000+` gets the suffix `,+` while CountUp, given `separator=","`, already writes the counter as `1,000` | the stat `1,000+` of line 58: the counter ends on `1,000,+` | the suffix without the grouping separator, `+`, so the counter ends on `1,000+` | not executed | HomeStats.DonationsSuffixRepeatsSeparator | HomeStats.DonationsCounterSuffix |
