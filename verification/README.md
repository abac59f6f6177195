# WeatherApp core in Dafny

A model of the logic at the heart of WeatherApp, a Django site with browser scripts that shows
NWS weather alerts, pushes alert notifications to subscribers and their families, sells premium
plans through Stripe, and shows GFS/NAM model plots. The model covers:

- the scheduled alert sweep (`process_all_alerts`): personal alerts for saved locations, with
  the notified-alert ledger that prevents repeats, and the family fan-out when a family
  member's latest location ping lies inside a warning polygon;
- the stand-alone warned-area flagger (`check_locations_against_warnings`);
- the navbar alert tier (`determine_alert_priority_from_list`, `get_user_navbar_alert_info`);
- the account settings rules: the saved-location limit, the default location, deletion with
  promotion of a new default, notification toggles, and the listing order;
- the family plan: invitation slots, invitation acceptance, and joining at sign-up;
- the Stripe webhook state machine and the push-subscription save view;
- the site-announcement middleware and the admin message summary;
- forecast-hour validation, hour lists, parameter lookup and plot image names of the model
  pages, the GFS run choice, and the plot-generation tasks' bookkeeping;
- the browser side: the VAPID key decoding, the CSRF cookie lookup, the subscription request,
  the GFS page's URL building, preload pool, neighbour preloading and slider snapping;
- the service worker: cache clean-up on activation, the fetch strategies, push payload merging
  and notification clicks.

Every external party becomes an input:
- the NWS feed, Stripe's API, the geocoder, the push service, the clock, the disk, `atob` and
  `decodeURIComponent` are parameters;
- a failure of any of them is `None`.

Coordinates are integer micro-degrees, and times are seconds.

One module per component:
- `Wrappers` and `Text` hold shared helpers: `Option`, ASCII lower-casing, stripping by
  Python's and JavaScript's whitespace sets, zero padding, and CPython's `int()` on text (with
  every Unicode decimal digit and Python whitespace character, and CPython's default limit of
  4300 digits);
- `Geometry` holds point-in-polygon containment.

## Model

| member | source | states |
|---|---|---|
| NwsFeed.PointAlerts | subscriptions/tasks.py:40-59 | A failed request yields no alerts. Otherwise every alert comes from a feature with a non-empty id, and every such feature before the first one with null properties gives its alert. |
| NwsFeed.KeepWithId | subscriptions/tasks.py:49-58 | Each kept alert comes from a feature with an id, with the event and headline defaults applied. Every feature with an id that no null-properties feature precedes is kept. |
| NwsFeed.KeepWithIdAppend | subscriptions/tasks.py:49-56 | Keeping distributes over concatenation when the first part has no null properties, so the alerts follow feed order. |
| NwsFeed.KeepWithIdStopsAtNull | subscriptions/tasks.py:50-58 | A feature with null properties raises, so nothing from it or after it is kept. |
| NwsFeed.SweepPolygons | subscriptions/tasks.py:61-81 | A failed request gives no polygons. Every polygon carries one of the four warning events and a ring of at least four points. |
| NwsFeed.GatherSweep | subscriptions/tasks.py:70-78 | The gathered polygons are no more than the features, and each is a warning with a usable ring. |
| NwsFeed.GatherSweepExact | subscriptions/tasks.py:72-78 | Without malformed features, a polygon is gathered iff it comes from a Polygon-type warning feature with a ring of four or more points. |
| NwsFeed.GatherSweepStopsAtMalformed | subscriptions/tasks.py:73-81 | A warning feature without a first ring raises inside the try. The list gathered before it is returned, and later features are lost. |
| NwsFeed.FlaggerPolygons | accounts/tasks.py:24-60 | The flagger aborts when the request fails. Every ring it keeps has at least four points. |
| NwsFeed.GatherFlagger | accounts/tasks.py:46-53 | It aborts iff some feature with a geometry has null properties, or is a warning whose first coordinate item raises on `len` or on `Polygon`. Otherwise the rings are exactly the first items of warning features that are position lists of four or more points. |
| NwsFeed.FlaggerByGeometry | accounts/tasks.py:49-51 | A warning whose first coordinate item is a number aborts the task. A short list of any other kind (such as a MultiPolygon's first polygon) is skipped, and a position list of four or more points is kept as a ring. |
| Geometry.BoxContains | accounts/tasks.py:84 | For an axis-aligned box, `contains` holds iff the point is strictly inside both coordinate ranges, so the boundary is excluded. |
| Geometry.OutsideLatitudeBand | accounts/tasks.py:84 | A point above or below every vertex of a ring is never contained. |
| WarnedArea.Evaluated | accounts/tasks.py:64-74 | The evaluated pings are exactly each user's latest ping, when it is no older than 30 minutes. |
| WarnedArea.EvaluatedFrom | accounts/tasks.py:71-74 | Scanning from a row on keeps exactly the evaluated pings at or after it. |
| WarnedArea.OneEvaluatedPerUser | accounts/tasks.py:64-74 | With unique keys, a user has at most one evaluated ping. |
| WarnedArea.NewerRowHides | accounts/tasks.py:64-66 | A newer ping of the same user excludes an older one, however recent the older one is. |
| WarnedArea.PksOf | accounts/tasks.py:99 | The keys collected are exactly the keys of the given pings. |
| WarnedArea.FirstMatch | accounts/tasks.py:83-86 | The index found is the first ring containing the point. None means that no ring contains it. |
| WarnedArea.WarnedPks | accounts/tasks.py:79-89 | A key is collected iff its ping is evaluated and inside some warning ring. |
| WarnedArea.ApplyFlags | accounts/tasks.py:95-102 | Warned keys get true, and evaluated keys that are not warned get false. Every other row and every other field is unchanged. |
| WarnedArea.CheckLocationsAgainstWarnings | accounts/tasks.py:24-102 | The task aborts with no write iff the feed fails or is malformed. Otherwise an evaluated ping's flag becomes whether a ring contains it, and nothing else changes. |
| WarnedArea.KeyDeterminesRow | accounts/tasks.py:98-102 | With unique keys, a row is touched by the key-based update iff the row itself was evaluated. |
| WarnedArea.AsWrittenMissesWarnedPing | accounts/tasks.py:70 | A recent ping inside a tornado-warning box must be flagged, but the task as written raises first and flags nothing. |
| AlertSweep.KeepMonitored | subscriptions/tasks.py:100-102 | A location is monitored iff notifications are on and either the user is premium or the location is the default. |
| AlertSweep.Monitored | subscriptions/tasks.py:100-104 | The monitored locations of a user, by the same rule. |
| AlertSweep.LocPks | subscriptions/tasks.py:106 | The keys are exactly those of the given locations. |
| AlertSweep.NotifiedIds | subscriptions/tasks.py:98 | The snapshot holds exactly the alert ids the ledger has for the user. |
| AlertSweep.Entries | subscriptions/tasks.py:121-123 | A run of sends writes at most one ledger row per send. |
| AlertSweep.EntriesExact | subscriptions/tasks.py:121-127 | A ledger row is written iff its send was delivered. A failed send writes no row. |
| AlertSweep.EntriesAppend | subscriptions/tasks.py:121-124 | The ledger rows of two runs concatenate. |
| AlertSweep.AlertStep | subscriptions/tasks.py:108-127 | An alert without id or event, one already notified, or one whose event was pushed this turn is skipped. Otherwise exactly one send is attempted for it. |
| AlertSweep.AlertsRun | subscriptions/tasks.py:108-127 | Every fresh alert with id and event is attempted, unless its event was already delivered in this turn. |
| AlertSweep.LocationsRun | subscriptions/tasks.py:106-127 | Sends go only to the given locations and follow the per-alert rules. Every alert with an id and an event at any of the locations, and not notified before, is attempted unless its event was already delivered this turn. |
| AlertSweep.UserTurn | subscriptions/tasks.py:94-127 | A user without a profile or an active device is skipped. Otherwise the ledger is read once, the pushed-event set starts empty, and every fresh alert at a monitored location reaches the user: it is attempted for them, or its event was delivered to them. |
| AlertSweep.PersonalSweep | subscriptions/tasks.py:92-127 | The outbox only grows, and a ledger row is written exactly for each delivered send. Every send is permitted, and no user gets two delivered pushes for one event. |
| AlertSweep.PersonalSweepReaches | subscriptions/tasks.py:92-127 | With distinct users, every user with a profile and an active device is reached for every alert with an id and an event at each monitored location that the ledger did not hold for them. |
| AlertSweep.DeliveredNeverResent | subscriptions/tasks.py:98-123 | An alert delivered to a user in one run is never attempted for that user in the next run, whatever the later feed. |
| AlertSweep.LedgerBlocksResend | subscriptions/tasks.py:113-123 | A delivered alert's ledger row blocks every later send of that alert id to that user. |
| AlertSweep.FailedSendsWriteNothing | subscriptions/tasks.py:121-127 | When no push goes through, the ledger is unchanged, so the alerts will be tried again. |
| AlertSweep.FamilyOf | subscriptions/tasks.py:147 | The family is the first one the user owns or belongs to. None means the user is in no family. |
| AlertSweep.Recipients | subscriptions/tasks.py:149-153 | Recipients are exactly the family's owner and members, minus the warned user, restricted to users with an active device. |
| AlertSweep.NoticesFor | subscriptions/tasks.py:146-166 | The notices for a warned ping go to exactly its family's recipients and name the user and the event. |
| AlertSweep.PingNotices | subscriptions/tasks.py:143-167 | A ping outside every polygon causes nothing. Each notice it causes is about its user and goes to someone else with a device. |
| AlertSweep.PingNoticeNamesPolygon | subscriptions/tasks.py:143-146 | Every notice a ping causes names the event of a polygon that contains the ping. |
| AlertSweep.FirstHit | subscriptions/tasks.py:143-167 | The polygon loop stops at the first polygon containing the point. |
| AlertSweep.FamilyScan | subscriptions/tasks.py:140-167 | A key is warned iff its ping is inside a polygon. The notices are exactly those caused by the evaluated pings. |
| AlertSweep.FamilyStep | subscriptions/tasks.py:131-170 | With no polygons nothing changes and nothing is sent. Otherwise every evaluated ping's flag is overwritten, other rows are kept, and the notices are exactly the fan-out. |
| AlertSweep.ProcessAllAlerts | subscriptions/tasks.py:85-170 | The task's personal part is exactly the sweep, then the family part runs. Each evaluated ping's flag becomes whether a warning polygon contains it, other rows keep their state, and the family notices are exactly the fan-out of the evaluated pings. |
| AlertPriority.Classify | weather/utils.py:27-34 | An event is a warning iff it mentions "warning". It is a watch iff it mentions "watch" but not "warning". It is an advisory iff it mentions "advisory" or "statement" and neither of the others. |
| AlertPriority.Scan | weather/utils.py:26-47 | The tier never drops, it is either the start or some event's tier, and it is at least every event's tier. |
| AlertPriority.DetermineAlertPriority | weather/utils.py:20-49 | The result is the highest tier among the events. None means no event has a tier. |
| AlertPriority.PriorityIgnoresOrder | weather/utils.py:26-47 | Lists with the same events give the same tier, whatever their order or repetitions. |
| AlertPriority.WarningWins | weather/utils.py:29-39 | Any event mentioning "warning" is a warning. |
| AlertPriority.NavbarLocation | weather/utils.py:71 | The checked location is a default location with notifications on. None means there is no such location. |
| AlertPriority.NavbarAlertInfo | weather/utils.py:57-101 | Anonymous users, and users without a qualifying location, get no status and count 0. Otherwise the count is the number of alerts at the checked location and the status is their highest tier. |
| AlertPriority.NavbarLocationIsFirst | weather/utils.py:71 | The checked location is the first one that is the default with notifications on. |
| AlertPriority.NavbarUsesFirstDefault | weather/utils.py:69-101 | For a signed-in user with a profile, the count and tier are those of the alerts at the first default location with notifications on. |
| AccountRules.MaxLocations | accounts/views.py:103-104 | The limit is three saved locations with premium access and one without. |
| AccountRules.IndexOfPk | accounts/views.py:178 | The lookup finds the row with the key. None means there is no such row. |
| AccountRules.AddLocation | accounts/views.py:221-244 | A location is added iff the user is under the limit, the query is not blank and the geocode succeeds. It is appended, and it becomes the default only when none exists. Well-formedness is kept. |
| AccountRules.SetDefault | accounts/views.py:173-185 | When the key exists, exactly that row becomes the default. A missing or unknown key rolls back to the unchanged list. |
| AccountRules.SetDefaultKeepsWellFormed | accounts/views.py:176-180 | Ordered keys and exactly one default are kept. |
| AccountRules.RemoveAt | accounts/views.py:194 | Deleting a row keeps the other rows in order. |
| AccountRules.MinPkIndex | accounts/views.py:197 | The promoted row has the smallest key. |
| AccountRules.DeleteLocation | accounts/views.py:188-203 | An unknown key changes nothing. Deleting the default promotes the remaining row with the smallest key, and deleting any other row changes no flag. |
| AccountRules.RemoveKeepsSorted | accounts/views.py:194 | Deletion keeps keys ordered. |
| AccountRules.RemoveOtherKeepsDefault | accounts/views.py:193-196 | Deleting a row that is not the default keeps exactly one default. |
| AccountRules.RemoveDefaultPromotes | accounts/views.py:196-200 | Deleting the default and promoting one row leaves exactly that row as the default. |
| AccountRules.DeleteKeepsWellFormed | accounts/views.py:188-203 | Deletion keeps ordered keys and exactly one default. |
| AccountRules.ToggleNotifications | accounts/views.py:206-218 | Exactly the chosen row's notification flag flips. A missing or unknown key changes nothing. |
| AccountRules.ToggleKeepsWellFormed | accounts/views.py:210-212 | Toggling keeps ordered keys and the default. |
| AccountRules.ToggleTwice | accounts/views.py:211 | Toggling the same row twice restores the list. |
| AccountRules.Keep | accounts/views.py:254 | Filtering by default flag keeps exactly the rows with that flag. |
| AccountRules.KeepSorted | accounts/views.py:254 | Filtering keeps the key order. |
| AccountRules.KeepSplits | accounts/views.py:254 | The default and non-default parts together are a permutation of the list. |
| AccountRules.DisplayOrder | accounts/views.py:254 | The listing is a permutation of the locations, ordered default first and then by key. |
| FamilyPlan.PendingCount | accounts/views.py:123 | There are at most as many pending invitations as invitations. |
| FamilyPlan.PendingAppend | accounts/views.py:122-124 | A new unaccepted invitation adds exactly one pending slot. |
| FamilyPlan.PendingAccept | accounts/views.py:122-124 | Accepting a pending invitation frees exactly one pending slot. |
| FamilyPlan.Invite | accounts/views.py:111-170 | An invitation is created iff the owner has premium access and a free slot, the address is valid, and it is neither a member's nor already invited. Slots never exceed three, and pending addresses stay distinct. |
| FamilyPlan.FindPending | accounts/views.py:286 | The lookup finds the pending invitation with the token. None means there is none. |
| FamilyPlan.Join | accounts/views.py:302-305 | The user becomes a member and exactly that invitation is accepted. |
| FamilyPlan.AcceptInvitation | accounts/views.py:283-313 | A logged-in user joins iff the token is pending, the address matches and the family has under three members. A visitor has the token stored and is sent to sign up. Every other case changes nothing. |
| FamilyPlan.SignUpJoin | accounts/views.py:57-77 | A new user joins iff the stored token is pending and the family has under three members, with no address check. The token is dropped after a successful lookup and kept after a failed one. |
| FamilyPlan.JoinKeepsSlots | accounts/views.py:122-124 | Joining through a pending invitation never uses more slots. |
| FamilyPlan.AcceptKeepsPlan | accounts/views.py:297-305 | Acceptance keeps at most three members, at most three slots, and distinct pending addresses. |
| FamilyPlan.SignUpKeepsPlan | accounts/views.py:61-68 | Joining at sign-up keeps the same limits. |
| Billing.ActiveChoices | subscriptions/models.py:17-47 | Of the seven statuses exactly active and trialing grant access. The default status, past_due and canceled are valid and inactive. |
| Billing.IndexOfUser | subscriptions/models.py:27-28 | The lookup finds the user's row. None means there is none. |
| Billing.IndexOfSubscription | subscriptions/views.py:228 | The lookup finds the row with the Stripe id. None means there is none. |
| Billing.Upsert | subscriptions/views.py:174-183 | The record is stored, and other users' rows are kept. Uniqueness is kept unless the ids clash with another user's row. |
| Billing.Overwrite | subscriptions/views.py:252-278 | Exactly one row is replaced, and uniqueness is kept. |
| Billing.Checkout | subscriptions/views.py:132-214 | The response is 400 iff the user reference is missing or unknown or the subscription id is missing. It is 500 iff the Stripe lookup fails, the plan is unknown or the ids clash. It is 200 only with the upserted row, and an error writes nothing. |
| Billing.Renew | subscriptions/views.py:219-243 | The row with the id gets Stripe's status, and its period end when that is truthy. Without an id, lookup or row nothing changes. |
| Billing.ChangedPeriodEnd | subscriptions/views.py:255-266 | The event's truthy period end wins. Otherwise a cancellation's truthy cancel time is used, and otherwise the stored value stays. |
| Billing.UpdateById | subscriptions/views.py:250-278 | Only the row with the id changes, and only in status and period end. Uniqueness is kept. |
| Billing.HandleEvent | subscriptions/views.py:115-307 | An unverified event gets 400 and no change. Every handled event other than a checkout is acknowledged with 200. An error never writes, and uniqueness is kept. |
| Billing.PaymentFailedMarksPastDue | subscriptions/views.py:287-295 | A failed payment makes exactly the matching row past_due, which is inactive. |
| Billing.CheckoutOneRowPerUser | subscriptions/views.py:174-183 | After a successful checkout the user has exactly one row, carrying the new subscription and customer ids. |
| Billing.StatusesStayValid | subscriptions/models.py:17-25 | If Stripe sends only the seven statuses, every stored status stays one of them. |
| Billing.IndexOfDevice | subscriptions/views.py:338-340 | The lookup finds the device keyed by user and endpoint. None means there is none. |
| Billing.SavePushSubscription | subscriptions/views.py:317-360 | The response is 400 iff the body is not JSON or lacks the endpoint or a key. It is 500 iff a present endpoint or key is `null`, which a NOT NULL column refuses, or the database fails. On 200 the device for (user, endpoint) is active with the keys, and other devices stay. |
| Billing.SaveIdempotent | subscriptions/views.py:338-348 | Saving the same body twice equals saving it once, whatever the body. |
| Announcements.LatestActive | pages/middleware.py:17 | The result is an active announcement no older than any other active one. None means none is active. |
| Announcements.HandleRequest | pages/middleware.py:11-35 | The announcement is shown iff the visitor is logged in with a profile and has not seen it. It is then appended to the seen list, and otherwise nothing changes. |
| Announcements.ShownOnce | pages/middleware.py:26-32 | A second identical request shows nothing. |
| Announcements.SeenOnlyGrows | pages/middleware.py:22-32 | The seen list only grows at its end and never holds an identifier twice. |
| Announcements.MessageSummary | pages/admin.py:12-13 | A message of up to 75 characters is kept. A longer one becomes its first 75 characters followed by "...". |
| Text.StripBy | weather/views.py:139 | The stripped text is no longer than the input and has no whitespace of the chosen set at either end. |
| Text.StripExtremes | weather/views.py:52 | Text made only of whitespace, such as a no-break space, strips to empty. Text with no whitespace at its ends is unchanged. |
| Text.PyIntReadsAnyScript | weather/views.py:147 | `int()` reads digits of any script and Python whitespace exactly as their ASCII forms. |
| Text.PyIntOfDigits | weather/views.py:147 | A non-empty string of ASCII digits reads as its value iff it has at most 4300 digits, leading zeros included; a longer one raises. |
| Text.PyIntOfZeroPad | weather/grib_processing.py:47-48 | A zero-padded non-negative number reads back as itself iff the padded text has at most 4300 digits. |
| ForecastHours.ValidHour | weather/views.py:145-151 | A stripped integer within range is zero-padded to the width and reads back as itself. Anything else gives the fallback. |
| ForecastHours.GfsHour | weather/views.py:139-151 | The GFS hour has three digits. It is the requested hour when that is an integer in 0..384, and 006 otherwise. |
| ForecastHours.NamHour | weather/views.py:260-274 | The NAM hour has two digits. It is the requested hour when that is an integer in 0..84, and 00 otherwise. |
| ForecastHours.GfsHours | weather/views.py:178 | The GFS list has 21 hours, every sixth from 0 to 120. |
| ForecastHours.NamHours | weather/views.py:312 | The NAM list has 53 hours: each hour to 36, then every third to 84. |
| ForecastHours.LabelsReadBack | weather/views.py:178 | Labels of strictly increasing hours are distinct digit strings, each with its hour as value; a label of at most 4300 digits reads back as its hour. |
| ForecastHours.LongHourFallsBack | weather/views.py:145-151 | An hour written with more than 4300 digits gives the fallback on both pages, however small its value. |
| ForecastHours.GfsListShape | weather/tasks.py:28 | The GFS labels are 21 distinct three-digit labels for hours 0, 6, …, 120. |
| ForecastHours.NamListShape | weather/tasks.py:112-116 | The NAM labels are 53 distinct two-digit labels for strictly increasing hours. |
| ForecastHours.ListedHoursValidate | weather/views.py:268-274 | Every listed hour survives validation unchanged. |
| ForecastHours.Lookup | weather/views.py:140 | The lookup finds a parameter with the code. None means the code is unknown. |
| ForecastHours.PageParam | weather/views.py:138-143 | The page uses the requested parameter when known, and the default one otherwise. |
| ForecastHours.ApiParam | weather/views.py:204-207 | The API refuses exactly the unknown codes and otherwise returns the requested parameter. |
| ForecastHours.PageAndApiAgree | weather/views.py:259-266 | Page and API agree wherever the API accepts a code. The page shows the default exactly where the API refuses. |
| ForecastHours.ImageName | weather/views.py:279 | The image name starts with the prefix, ends with ".png" and has the combined length. |
| ForecastHours.ImageNameInjective | weather/views.py:353 | With fixed-width parts, an image name determines the prefix, date, run hour and forecast hour. |
| ForecastHours.ValidTime | weather/views.py:302 | A forecast is never valid before its run. |
| ForecastHours.PaddedHourValue | weather/views.py:301-302 | A padded hour stands for the hour it renders. |
| ForecastHours.NamValidTime | weather/views.py:298-306 | A valid NAM request is valid that many hours after the run. Any other request is valid at the run time. |
| ForecastHours.NamPageImage | weather/views.py:259-282 | The NAM page's image is named by a NAM parameter's prefix and the validated hour. |
| ForecastHours.FirstDefault | weather/views.py:80 | The result is the first default location. None means there is none. |
| ForecastHours.AlertsPlace | weather/views.py:41-88 | A non-blank query wins, falling back to the site default with an error when geocoding fails. Without a query, a signed-in user's first default location is used, and otherwise the site default. |
| GfsRuns.TargetTime | weather/grib_processing.py:20 | The target time is seven hours before now. |
| GfsRuns.HourOfDay | weather/grib_processing.py:23 | The UTC hour of the target time is in 0..23. |
| GfsRuns.DateString | weather/grib_processing.py:22 | The date has eight digits, which read back as year, month and day. |
| GfsRuns.PaddedField | weather/grib_processing.py:22 | Each date field fills its width and reads back as its value. |
| GfsRuns.RunHour | weather/grib_processing.py:25-28 | The run hour is one of 00, 06, 12 and 18, chosen by the six-hour block of the hour. |
| GfsRuns.RunHoursRead | weather/grib_processing.py:25-28 | The run-hour labels name the hours 0, 6, 12 and 18. |
| GfsRuns.RunHourIsLatest | weather/grib_processing.py:25-28 | The run hour is the latest multiple of six not after the hour. |
| GfsRuns.LatestGfsRun | weather/grib_processing.py:14-33 | The run is the date and six-hourly run of the time seven hours back. |
| GfsRuns.NormalizeGfsHour | weather/grib_processing.py:46-51 | A non-integer is refused. A non-negative hour becomes at least three digits that read back as the same hour. |
| GfsRuns.PaddedReadsBack | weather/grib_processing.py:47-48 | A padded non-negative hour of at most 4300 digits reads back as itself. |
| GfsRuns.LongHourRefused | weather/grib_processing.py:46-51 | An hour written with more than 4300 digits is refused by `int()`, even when its value is small. |
| GfsRuns.NormalizeIdempotent | weather/grib_processing.py:46-51 | Normalising a normalised hour changes nothing. |
| GfsRuns.GfsOutputName | weather/grib_processing.py:57 | A non-integer hour gives no file. Otherwise the name uses the normalised hour. |
| GfsRuns.TaskNamesMatchOutput | weather/grib_processing.py:46-57 | The task's listed hours are already normal, so the name checked on disk is the name the `generate_model_plot` command writes (through `generate_gfs_plot_for_hour`) for that hour. |
| PlotTasks.GeneratedCount | weather/tasks.py:73-95 | At most one image per hour counts as generated. |
| PlotTasks.AllOnDiskAllGenerated | weather/tasks.py:78-81 | When every image is on disk, every hour counts as generated. |
| PlotTasks.NothingProducedNoneGenerated | weather/tasks.py:92-95 | When nothing is on disk and every plot fails, nothing counts. |
| PlotTasks.PlotParameter | weather/tasks.py:69-98 | Each hour adds to exactly one of generated or failed. The generated count is the number of hours on disk or plotted. |
| PlotTasks.TotalGenerated | weather/tasks.py:97-98 | The run total is at most parameters times hours. |
| PlotTasks.RunTask | weather/tasks.py:66-98 | The totals add up to parameters times hours, and generated is the sum of the per-parameter counts. |
| PlotTasks.GfsPlotRun | weather/tasks.py:23-98 | The GFS task accounts for 3 × 21 images. |
| PlotTasks.NamPlotRun | weather/tasks.py:105-212 | The NAM task, with the corrected prefix, accounts for 5 × 53 images. |
| PlotTasks.DistinctHeads | weather/tasks.py:189 | Images whose prefixes differ in their first five characters never share a name. |
| PlotTasks.AsWrittenDewPointMissing | weather/tasks.py:146 | The NAM page's dew-point image is never produced by the task as written, whatever the run. |
| PlotTasks.PagePrefixesProduced | weather/views.py:30-37 | Every prefix the NAM page can look up is produced by the corrected task. |
| PlotTasks.EveryNamPagePlotIsGenerated | weather/views.py:259-282 | Every NAM page image for a listed hour is one that the corrected task produces. |
| PushClient.Padding | static/js/push_manager_modal.js:7 | The padding is below four and makes the length a multiple of four. |
| PushClient.Repeat | static/js/push_manager_modal.js:7 | The padding string has exactly that many padding characters. |
| PushClient.ToStandard | static/js/push_manager_modal.js:8-10 | The result has the same length and no `-` or `_`, and other characters are kept. |
| PushClient.ToUrl | static/js/push_manager_modal.js:8-10 | The inverse mapping has the same length and no `+` or `/`, and other characters are kept. |
| PushClient.AlphabetsCorrespond | static/js/push_manager_modal.js:8-10 | The two alphabets map back and forth without loss (RFC 4648 section 5). |
| PushClient.Base64Form | static/js/push_manager_modal.js:7-10 | The text given to `atob` is the key in the standard alphabet, padded with `=` to a multiple of four. |
| PushClient.UrlBase64ToBytes | static/js/push_manager_modal.js:6-17 | The key is refused iff `atob` throws. Otherwise there is one byte per decoded character, each its code modulo 256. |
| PushClient.Split | static/js/push_manager_modal.js:23 | There is at least one piece, and no piece contains the separator. |
| PushClient.SplitJoin | static/js/push_manager_modal.js:23 | Joining the pieces gives the cookie string back. |
| PushClient.Trimmed | static/js/push_manager_modal.js:25 | Each piece is trimmed. |
| PushClient.FirstCookieIsFirst | static/js/push_manager_modal.js:24-30 | The lookup finds nothing iff no piece names the cookie, and otherwise decodes the first piece that does. |
| PushClient.GetCookie | static/js/push_manager_modal.js:20-34 | An empty cookie string gives null. Otherwise the result is the first trimmed piece naming the cookie. |
| PushClient.SubscriptionRequest | static/js/push_manager.js:162-166 | POST goes to the save URL with the full subscription. Any other method goes to the delete URL with the endpoint alone. |
| PushClient.Received | static/js/push_manager.js:164-166 | Every body the browser sends carries an endpoint. |
| PushClient.PostIsAccepted | static/js/push_manager.js:162-175 | The POST body is accepted by the save view and stores the device active. An endpoint-only body would be refused with 400. |
| ModelPage.BuildImageUrl | weather/static/weather/js/gfs_model_page.js:78-84 | The result is null iff a part is missing. Otherwise it is the media URL plus the server's image name for the hour padded to three digits. |
| ModelPage.UrlMatchesServerName | weather/static/weather/js/gfs_model_page.js:81-83 | A bare hour number and a listed label both give the name the server writes. |
| ModelPage.ListedUrlsDistinct | weather/static/weather/js/gfs_model_page.js:81-83 | Distinct listed hours give distinct URLs. |
| ModelPage.Step | weather/static/weather/js/gfs_model_page.js:86-102 | A load starts iff the URL is present and not pooled, and it is then pooled. A failed load leaves the pool. |
| ModelPage.LoadedOncePerFailure | weather/static/weather/js/gfs_model_page.js:87-100 | A URL is loaded at most once plus once per failure of it. |
| ModelPage.IndexOf | weather/static/weather/js/gfs_model_page.js:112-116 | The index is the first occurrence. None means the value is absent. |
| ModelPage.NeighbourIndices | weather/static/weather/js/gfs_model_page.js:104-128 | Nothing is preloaded with a missing or empty prefix or for an unlisted hour. Otherwise exactly the list indices within `n` of the hour, other than itself, are preloaded. |
| ModelPage.SliderStep | weather/static/weather/js/gfs_model_page.js:291 | The step is never zero, and it is the attribute whenever that is a non-zero number. |
| ModelPage.FloorDiv | weather/static/weather/js/gfs_model_page.js:292 | The result is the floor of the quotient. |
| ModelPage.Snap | weather/static/weather/js/gfs_model_page.js:292 | The value snaps to the nearest multiple of the step, with halves going up. |
| ModelPage.SliderFetch | weather/static/weather/js/gfs_model_page.js:289-297 | The page fetches iff the snapped, padded hour differs from the current one. |
| ModelPage.SecondChangeIsQuiet | weather/static/weather/js/gfs_model_page.js:289-297 | An in-range snapped hour survives the server's hour validation unchanged, so repeating the change does not fetch again. |
| ServiceWorker.OldCaches | templates/sw.js:43-55 | The caches deleted are exactly this app's caches other than the current version. |
| ServiceWorker.Remove | templates/sw.js:45-52 | The caches that remain are exactly those not deleted. |
| ServiceWorker.OnlyCurrentCacheSurvives | templates/sw.js:4-55 | After activation the only cache of this app left is the current one, and other apps' caches stay. |
| ServiceWorker.StrategyFor | templates/sw.js:58-70 | Non-GET requests are not intercepted. Pages, meaning navigations or requests accepting HTML, go to the network first, and everything else to the cache first. |
| ServiceWorker.HandleFetch | templates/sw.js:58-124 | A network-first page caches an ok response and falls back to the cached page, then the offline page. A cache-first asset is served from the cache, else from the network, and is never cached. |
| ServiceWorker.OnlinePageServedOffline | templates/sw.js:73-93 | A page fetched once while online is served from the cache when the network is gone. |
| ServiceWorker.Merge | templates/sw.js:145-150 | Each field is replaced exactly when the payload has a truthy value for it. |
| ServiceWorker.MergeIdempotent | templates/sw.js:145-150 | Merging the same payload twice equals merging it once, and an empty payload keeps the defaults. |
| ServiceWorker.PushDataFor | templates/sw.js:130-160 | No data keeps the defaults. A JSON object is merged over them. Unparsable text replaces only the body, and only when non-empty. |
| ServiceWorker.HandlePushAsWritten | templates/sw.js:178-186 | As written, each push shows two identical notifications. |
| ServiceWorker.HandlePush | templates/sw.js:162-180 | The corrected handler shows one notification whose title, body, icon, badge, sound and URL are those of the merged push data. |
| ServiceWorker.AsWrittenShowsTwice | templates/sw.js:178-186 | Every push, whatever its payload, is shown twice as often as intended. |
| ServiceWorker.ClickUrl | templates/sw.js:194 | A click opens the notification's truthy URL, otherwise `/`, and never an empty URL. |
| ServiceWorker.ClickOpensPushedUrl | templates/sw.js:169-194 | A click opens the pushed URL, or the home page when the payload has none. |

## Left out

- Network calls (NWS, Stripe, Nominatim, web push, SMTP) are inputs: their answers are parameters, and a raised exception is `None`. Retries, timeouts and logging are not modelled.
- Shapely's `Polygon.contains` is modelled as ray casting with the boundary excluded, on integer micro-degree coordinates. Floating-point rounding, holes and self-intersecting rings are not modelled.
- WarnedArea.Evaluated: the database leaves ties between pings with equal timestamps unordered; the model breaks them towards the larger primary key.
- GfsRuns.LatestGfsRun: turning a day number into a calendar date is the `calendar` parameter, since the source leaves it to the standard library; only four-digit years are covered.
- PushClient.UrlBase64ToBytes: `window.atob` is a parameter, so the model does not prove the decoded bytes are the RFC 4648 value of the key.
- PushClient.GetCookie: `decodeURIComponent` is a parameter that is assumed not to throw.
- GfsRuns.NormalizeGfsHour: states no round trip for negative hours, whose `:03d` rendering carries a sign.
- GfsRuns.PaddedReadsBack: stated only for hours whose rendering has at most 4300 digits, since `int()` refuses a longer padded text.
- Text.PyInt: the 4300-digit limit is CPython's default `sys.int_max_str_digits` (Python 3.10.7, 3.11 and later). A changed setting, or an older Python without the limit, is not modelled.
- FamilyPlan.Invite: one household (one family and its invitations) is modelled at a time. A user who belongs to several families is not modelled.
- ServiceWorker.PushDataFor: payload values are strings only. Non-string JSON values and JSON `null` or primitives are not modelled.
- ServiceWorker.HandleFetch: the install-time pre-caching is not modelled. The asynchronous `cache.put` is taken to finish before the next request.
- ModelPage.SecondChangeIsQuiet: the API's `current_fhr` comes from `get_gfs_image_details_with_fallback`, which is not part of this model. The lemma assumes the page's current hour becomes the validated hour.
- `generate_gfs_parameter_plot`, `generate_nam_parameter_plot` and `get_latest_nam_rundate_and_hour` are not part of this model. The plot outcome is an oracle on the image name, and the NAM run is an input.
- Concurrency between tasks and requests is not modelled, nor is a database uniqueness constraint on notified alerts; each run is sequential.
- AlertSweep.Monitored: premium access (`has_premium_access`) is a boolean input, as it is for the navbar and the account views; how the profile derives it from the subscription is not modelled.
- AlertSweep.FamilyScan: family notices are a set per run. The source has no cross-run deduplication for family pushes, and the model does not add one.
- Billing.HandleEvent: status strings are stored as Stripe sends them, and the model does not check them against the choices (as the source does not).
- The radar and GRIB plotting pipelines, map UI scripts, the NAM page script (a near copy of the GFS page script), templates and e-mails are not modelled.
- AlertPriority.NavbarAlertInfo: the ten-minute cache is not modelled; every call recomputes. The zone lookup and the zone-or-point alert request are folded into one alert oracle per location.
- ForecastHours.PageParam: Python's `lower()` is modelled on ASCII letters only. Of the other characters, only U+212A (to `k`) and U+0130 (to `i` and U+0307) lower to something containing ASCII, and no parameter code contains `k` or U+0307, so whether a code is found, and which, is the same.
- ForecastHours.ApiParam: the same ASCII `lower()`, with the same argument that the API refuses and accepts the same codes.
- AlertPriority.Classify: the same ASCII `lower()`. "warning", "watch", "advisory" and "statement" contain no `k`, and the dotted capital I lowers to two characters, so every event gets the tier the source gives it.
- NwsFeed.GatherFlagger: a first coordinate item that is a list of four or more items other than positions (a MultiPolygon's first polygon with four or more rings) is taken to raise, since Shapely cannot read a ring from it. What Shapely accepts among such inputs is not modelled.
- NwsFeed.PointAlerts: only `properties` that are a JSON object or null are modelled; a non-string `id` or `event` value is not.
- Billing.Checkout: the client reference is a number or absent. A non-numeric reference makes the user lookup raise `ValueError` outside the handler, a 500 response that the model cannot express, so the 400 and 500 cases are stated only for numeric or absent references.
- Billing.SavePushSubscription: the body is a JSON object whose `keys` is an object. A JSON list body, or a `keys` that is a string, passes the membership checks and then raises `TypeError` outside the handler, and a `null` `keys` raises `TypeError` in the check itself; each is a 500 response with no database failure that the model cannot express. The `endpoint`, `p256dh` and `auth` values are strings or `null`; a number or other non-string value, which the database would store as its text with a 200 answer, is not modelled.

## Findings

| source | as written | input that shows it | evidently intended | confidence | as-written member | corrected member |
|---|---|---|---|---|---|---|
| accounts/tasks.py:70 | `timezone.now()` is called on `datetime.timezone`, which has no `now`, so the task raises after reading the feed and before any update | any run whose feed parses, e.g. one tornado-warning box around 36.44 N 95.28 W with a recent ping inside it | compute the 30-minute cutoff from the current UTC time and flag the ping | not executed | WarnedArea.AsWrittenMissesWarnedPing | WarnedArea.CheckLocationsAgainstWarnings |
| weather/tasks.py:146 | the NAM dew-point plot is saved with prefix `gfs_dewp2m` | the NAM page request `param=dewp2m`, which looks up `nam_dewp2m` (weather/views.py:33) | save NAM dew-point plots as `nam_dewp2m` so that the page finds them | not executed | PlotTasks.AsWrittenDewPointMissing | PlotTasks.EveryNamPagePlotIsGenerated |
| templates/sw.js:178-186 | the push handler calls `showNotification` twice with the same title and options | any push, with or without a payload | show one notification per push | not executed | ServiceWorker.AsWrittenShowsTwice | ServiceWorker.HandlePush |
