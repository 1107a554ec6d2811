# Kenya ni Yetu: verified model of the deterministic logic

Kenya ni Yetu is a political-transparency site: a Next.js front end and a FastAPI back end.
This project models in Dafny the parts of it that compute rather than draw:

- **The political linkages hypergraph.** It builds the set of valid node ids and the entity nodes. It keeps only the hyperedges that pass the type filter and have at least two valid members. For each kept hyperedge it emits a hyperedge node and one connector per valid member. The module also covers the colour and width rules, the "Active / Strong / Connected" counts and the per-associate badges. The graph build is a method with two loops, proved equal to a functional description. The properties are stated about that description.
- **The flagged-reports page.** It covers the search, status and priority filter, the per-status tally, the colour and icon lookups, and the Clear Filters reset. The filter state is a record of its values.
- **The list-valued settings of the back end.** These are `allowed_origins_list` and `allowed_extensions_list`, which compute Python's `split(",")` and then `strip()` each piece, and their defaults.
- **The score card.** It covers the score and confidence colour bands and the text size for each `size` prop.
- **The two tickers.** Each is a class whose `Tick` method advances `currentIndex` with `(prev + 1) % length`. A shared `Rotation` module proves the bound, the period and the once-per-round property.
- **The explore page.** It covers the party colour table and a pagination class with Previous and Next handlers.

JavaScript numbers are modelled as `real` where they are compared with thresholds. Indices and counts are `nat`. Strings are `seq<char>`.

Files:
- `wrappers.dfy`: `Option`.
- `seqs.dfy`: generic `filter`, `map`, the subsequence relation and their lemmas.
- One file per source file: `political_linkages.dfy`, `flagged_updates.dfy`, `config.dfy`, `score_card.dfy`, `alert_ticker.dfy`, `news_ticker_banner.dfy`, `explore.dfy`.
- `rotation.dfy`: the index step shared by the tickers.

## Model

| member | source | states |
|---|---|---|
| PoliticalLinkages.ValidIds | app/components/political-linkages.tsx:108-109 | The valid ids are exactly the main id (`politician?.id || "main"`) and every associate id: each is in the set, and nothing else is. |
| PoliticalLinkages.EntityNodes | app/components/political-linkages.tsx:111-129 | There are `associates.length + 1` entity nodes. The first is the main node with the "main" type. Node `i + 1` carries associate `i`'s id, name and position with the associate type, in input order. |
| PoliticalLinkages.EntityNodeIdsAreValidIds | app/components/political-linkages.tsx:109-129 | The set of entity node ids equals the valid id set. |
| PoliticalLinkages.BuildGraph | app/components/political-linkages.tsx:108-167 | The imperative build returns exactly `GraphOf`: the entity nodes, the hyperedge nodes of the surviving hyperedges in order, and their connectors. It keeps two loop invariants over the prefix of hyperedges processed and the prefix of valid members pushed. |
| PoliticalLinkages.SurvivingStep | app/components/political-linkages.tsx:135-140 | Processing one more hyperedge extends the survivors by that hyperedge exactly when it is emitted, and otherwise leaves them unchanged. |
| PoliticalLinkages.EmitStep | app/components/political-linkages.tsx:143-164 | Emitting one more hyperedge appends exactly its node to the hyperedge nodes. It appends exactly its member connectors to the edges. |
| PoliticalLinkages.LinksStep | app/components/political-linkages.tsx:155-164 | Pushing the connector of member `j` extends the connectors of the first `j` members to those of the first `j + 1`. |
| PoliticalLinkages.ConnectorsAppend | app/components/political-linkages.tsx:135-167 | The connectors of two runs of hyperedges are the first run's connectors followed by the second's. |
| PoliticalLinkages.ValidMembersSpec | app/components/political-linkages.tsx:138 | The valid members are an order-preserving subsequence of the members. A member is kept iff it is in the valid set, and a repeated valid member is kept as often as it is listed, so "at least 2 valid members" counts repeats. |
| PoliticalLinkages.SurvivingSpec | app/components/political-linkages.tsx:136-140 | A hyperedge is emitted iff its type passes the filter (`"all"` or equal) and at least 2 of its members are valid. The emitted ones keep the input order. |
| PoliticalLinkages.SurvivingMultiplicity | app/components/political-linkages.tsx:136-140 | A hyperedge that is emitted keeps every one of its copies in the input, and one that is dropped keeps none. |
| PoliticalLinkages.HyperNodesCopy | app/components/political-linkages.tsx:135-152 | There is one hyperedge node per survivor, in order, copying id, label, type, strength and description. |
| PoliticalLinkages.FilterNarrows | app/components/political-linkages.tsx:136 | The hyperedges emitted under any type filter are a subsequence, and a subset, of those emitted under `"all"`. There are never more of them. |
| PoliticalLinkages.LinksSpec | app/components/political-linkages.tsx:155-164 | There is one connector per member, in member order. Each has id `${he.id}-${member}`, source the member, target the hyperedge id and the hyperedge's strength. |
| PoliticalLinkages.ConnectorsFromSurvivors | app/components/political-linkages.tsx:138-164 | Every connector belongs to some emitted hyperedge. Its source is one of that hyperedge's valid members, and its id, target and strength are that hyperedge's. No connector comes from an invalid member. |
| PoliticalLinkages.ConnectorCount | app/components/political-linkages.tsx:140-164 | Since every survivor has at least two valid members, the survivors yield at least twice as many connectors as there are survivors, in total. |
| PoliticalLinkages.GraphHasNoDanglingConnectors | app/components/political-linkages.tsx:108-167 | In the built graph every connector's source is an entity node id, and its target is a hyperedge node id. There are at least twice as many connectors as hyperedge nodes. |
| PoliticalLinkages.TypeColor | app/components/political-linkages.tsx:88-98 | Each of the six types gets its fixed colour. The grey fallback `#6B7280` is returned iff the type is not one of them. |
| PoliticalLinkages.TypeColorInjective | app/components/political-linkages.tsx:89-96 | Distinct listed types get distinct colours. |
| PoliticalLinkages.EdgeWidth | app/components/political-linkages.tsx:228 | `max(1, strength * 4)` is at least 1 and at least `strength * 4`, and equals one of the two. |
| PoliticalLinkages.EdgeWidthMonotone | app/components/political-linkages.tsx:228 | A stronger connection is never drawn thinner. |
| PoliticalLinkages.ConnectionCounts | app/components/political-linkages.tsx:416-432 | The strong count is at most the active count. The active count, which ignores the type filter, equals the number of hyperedges emitted under `"all"`, and no filter emits more. |
| PoliticalLinkages.ConnectedPoliticiansAreEntityNodes | app/components/political-linkages.tsx:440 | "Connected Politicians" (`associates.length + 1`) is the number of entity nodes, whatever the filter. |
| PoliticalLinkages.AssociateBadges | app/components/political-linkages.tsx:466-481 | The badges show the first `min(3, count)` hyperedges containing the associate, in order. "+N more" appears iff the count exceeds 3. Shown plus N equals the count, and every shown hyperedge contains the associate. |
| PoliticalLinkages.ResolverExamples | app/components/political-linkages.tsx:108-140 | Take a caller like the politician page, which passes no politician and associates "1", "2", "3". Members `["main", "1", "2"]` resolve unchanged, and `["4", "5"]` resolve to nothing. |
| FlaggedUpdates.ToLower | app/flagged-updates/page.tsx:203-204 | Lowering keeps the length. Each of `A`..`Z` becomes the letter 32 code points later, every other character is kept, and no upper-case ASCII letter is left. |
| FlaggedUpdates.ToLowerIdempotent | app/flagged-updates/page.tsx:203-204 | Lowering an already lowered string changes nothing. |
| FlaggedUpdates.SearchIgnoresQueryCase | app/flagged-updates/page.tsx:202-204 | Two queries that lower to the same string match the same reports. |
| FlaggedUpdates.SearchQueryCaseFolds | app/flagged-updates/page.tsx:202-204 | A query matches exactly the reports its lower-case form matches. |
| FlaggedUpdates.Includes | app/flagged-updates/page.tsx:203-204 | `includes` holds iff the query occurs at some index of the string. |
| FlaggedUpdates.EmptyQueryIncluded | app/flagged-updates/page.tsx:202-204 | The empty query occurs in every string. |
| FlaggedUpdates.ClearFilters | app/flagged-updates/page.tsx:312-318 | The reset clears the query, sets both filters to `"all"` and clears both dates. |
| FlaggedUpdates.FilteredUpdates | app/flagged-updates/page.tsx:201-209 | The filtered list is never longer than the full list. |
| FlaggedUpdates.FilteredUpdatesSpec | app/flagged-updates/page.tsx:201-209 | The filtered list is an order-preserving subsequence. A report is kept iff three things hold: the lowered query occurs in the lowered politician name or the lowered issue, the status filter is `"all"` or equal, and the priority filter is `"all"` or equal. |
| FlaggedUpdates.FilteredUpdatesMultiplicity | app/flagged-updates/page.tsx:201-209 | A report that passes the three tests is kept as many times as it is listed, and one that fails is not kept at all. |
| FlaggedUpdates.AllIsNoConstraint | app/flagged-updates/page.tsx:205-206 | With both filters at `"all"`, the result is the search filter alone. |
| FlaggedUpdates.EmptyQueryMatchesAll | app/flagged-updates/page.tsx:202-204 | An empty query matches every report. |
| FlaggedUpdates.ClearFiltersShowsAll | app/flagged-updates/page.tsx:312-318 | After Clear Filters, the filtered list is the full list. |
| FlaggedUpdates.CountIsMultiplicity | app/flagged-updates/page.tsx:213-216 | Each per-status count is the number of reports with exactly that status. |
| FlaggedUpdates.CountsPartition | app/flagged-updates/page.tsx:211-217 | When every status is one of the four declared values, the four counts add up to `all`, the list length. |
| FlaggedUpdates.ShowingAtMostTotal | app/flagged-updates/page.tsx:323 | In "Showing X of Y", X ≤ Y. |
| FlaggedUpdates.StatusColor | app/flagged-updates/page.tsx:173-186 | Each listed status maps to its class. The blue default is returned iff the status is unlisted. |
| FlaggedUpdates.PriorityColor | app/flagged-updates/page.tsx:188-199 | Each listed priority maps to its class. The grey default is returned iff the priority is unlisted. |
| FlaggedUpdates.IconForStatus | app/flagged-updates/page.tsx:158-171 | The check mark appears iff the status is Verified or Dismissed, and the warning iff it is Investigating. The clock appears for everything else, including unlisted values. |
| Config.Split | backend/app/config.py:66 | `split(",")` never returns an empty list. |
| Config.SplitShape | backend/app/config.py:63-71 | There is one more piece than there are commas, and no piece contains a comma. |
| Config.JoinSplit | backend/app/config.py:63-71 | Joining the pieces with commas gives back the setting, so the pieces are its segments in order. |
| Config.SplitJoin | backend/app/config.py:63-71 | A comma-join of comma-free pieces splits back into those pieces. |
| Config.LeadingSpacesSpec | backend/app/config.py:63-71 | The leading count covers whitespace only and stops at the first other character. |
| Config.TrailingSpacesSpec | backend/app/config.py:63-71 | The trailing count covers whitespace only and stops at the last other character. |
| Config.Strip | backend/app/config.py:63-71 | A stripped string neither starts nor ends with a character `str.isspace()` accepts. |
| Config.StripSpec | backend/app/config.py:63-71 | Strip keeps a contiguous stretch of its input and removes only whitespace on either side. |
| Config.StripStripped | backend/app/config.py:63-71 | A string with no whitespace at either end is unchanged by strip. |
| Config.StripIdempotent | backend/app/config.py:63-71 | Stripping twice is stripping once. |
| Config.StripNoComma | backend/app/config.py:63-71 | Stripping a comma-free piece leaves it comma-free. |
| Config.ParseListShape | backend/app/config.py:63-71 | Both list properties have one entry per comma plus one, so never zero entries. Each entry is the stripped segment at the same position. No entry contains a comma or starts or ends with whitespace. |
| Config.ParseEmpty | backend/app/config.py:66 | `""` gives `[""]`. |
| Config.ParseJoin | backend/app/config.py:63-71 | Stripped, comma-free entries joined by commas parse back to exactly those entries. |
| Config.ParseSingle | backend/app/config.py:66 | A stripped, comma-free setting gives a one-entry list holding it. |
| Config.DefaultOriginsList | backend/app/config.py:63-66 | The default origins of line 15 give `["http://localhost:3000"]`. |
| Config.DefaultExtensionsList | backend/app/config.py:58-71 | The default extensions give the 7 entries `pdf, png, jpg, jpeg, gif, mp4, mov`, in that order. |
| ScoreCard.ScoreColor | app/components/score-card.tsx:10-15 | Green iff score ≥ 80, yellow iff 60 ≤ score < 80, orange iff 40 ≤ score < 60, red iff score < 40. |
| ScoreCard.ScoreBandsPartition | app/components/score-card.tsx:11-14 | Every score lands in one of the four bands. With the `iff`s above, it lands in exactly one. |
| ScoreCard.ScoreColorMonotone | app/components/score-card.tsx:10-15 | Raising the score never moves it to a lower band. |
| ScoreCard.ConfidenceColor | app/components/score-card.tsx:17-21 | Green iff ≥ 80, yellow iff in [60, 80), red iff < 60. There is no orange band. |
| ScoreCard.ConfidenceColorMonotone | app/components/score-card.tsx:17-21 | Raising the confidence never moves the badge to a lower band. |
| ScoreCard.SizeClass | app/components/score-card.tsx:9-27 | `sm`, `md` and `lg` give `text-lg`, `text-2xl` and `text-4xl`; leaving the prop out gives `text-2xl`, the `md` class. |
| ScoreCard.SizeClassesDistinct | app/components/score-card.tsx:23-27 | The three sizes give three different classes, and leaving the prop out is the same as `md`. |
| Rotation.Next | app/components/alert-ticker.tsx:24 | The step lands in `[0, n)`. It moves one place forward, or from the last position back to 0. |
| Rotation.Advance | app/components/alert-ticker.tsx:22-28 | After any positive number of ticks, or from any in-range start, the index is in `[0, n)`. |
| Rotation.AdvanceWithinRound | app/components/alert-ticker.tsx:24 | Within one round, `k` ticks from `i` give `i + k`, or `i + k - n` once past the end. |
| Rotation.AdvanceAdd | app/components/alert-ticker.tsx:22-28 | Ticking `a` times and then `b` times is ticking `a + b` times. |
| Rotation.AdvancePeriod | app/components/alert-ticker.tsx:24 | After `n` ticks every position is back where it started. |
| Rotation.EachPositionOncePerRound | app/components/news-ticker-banner.tsx:17 | Over any `n` consecutive ticks each position is reached by exactly one of them. |
| AlertTicker.Ticker.constructor | app/components/alert-ticker.tsx:14-20 | The ticker holds the given alerts and starts at index 0. |
| AlertTicker.Ticker.Tick | app/components/alert-ticker.tsx:22-28 | On a non-empty list the index becomes `(prev + 1) % alerts.length`, and the invariant ties it to the number of ticks. On an empty list `(prev + 1) % 0` makes it NaN. |
| AlertTicker.Ticker.Current | app/components/alert-ticker.tsx:30-32 | Nothing is shown iff the list is empty. Otherwise the shown alert is in the list, at the position reached after the ticks so far. |
| AlertTicker.IconOf | app/components/alert-ticker.tsx:38-42 | AlertTriangle iff the type is urgent, TrendingUp otherwise. |
| AlertTicker.AlertsCycle | app/components/alert-ticker.tsx:24 | After `alerts.length` ticks the ticker shows the alert it showed before them, and the index is always in bounds. |
| AlertTicker.SampleAlertsShape | app/components/alert-ticker.tsx:14-18 | The component's three alerts get TrendingUp, TrendingUp and AlertTriangle. |
| NewsTickerBanner.Banner.constructor | app/components/news-ticker-banner.tsx:13 | The banner starts at index 0. |
| NewsTickerBanner.Banner.Tick | app/components/news-ticker-banner.tsx:15-20 | The index becomes `(prev + 1) % 4`, and the invariant ties it to the number of ticks. |
| NewsTickerBanner.Banner.Headline | app/components/news-ticker-banner.tsx:27 | `newsItems[currentIndex]` is always in bounds. It is the headline reached after the ticks so far. |
| NewsTickerBanner.NewsItemsDistinct | app/components/news-ticker-banner.tsx:5-10 | There are four different headlines. |
| NewsTickerBanner.BannerCycle | app/components/news-ticker-banner.tsx:5-17 | After 4 ticks the banner is back on the headline it started from. |
| NewsTickerBanner.EachHeadlineOncePerRound | app/components/news-ticker-banner.tsx:17-27 | Over any 4 consecutive ticks each headline is shown exactly once. |
| Explore.PartyColor | app/explore/page.tsx:101-113 | A listed party gets its class from the eight-entry table. Any other name gets `bg-gray-100 text-gray-800`. |
| Explore.PartyColorFallbackIffUnlisted | app/explore/page.tsx:101-113 | The grey class is returned iff the party is not in the table. |
| Explore.PreviousPage | app/explore/page.tsx:242 | `max(1, p - 1)` is at least 1. It is `p - 1` above page 1, and 1 at or below it. |
| Explore.PreviousNextInverse | app/explore/page.tsx:242-253 | From any page ≥ 1, Previous undoes Next. Next undoes Previous above page 1, and after Previous on page 1 it gives page 2. |
| Explore.RunBounds | app/explore/page.tsx:242-253 | From page ≥ 1, no sequence of presses goes below 1, and the page rises at most one per Next. |
| Explore.RunAllNext | app/explore/page.tsx:253 | `k` Next presses move the page up exactly `k`. |
| Explore.Pagination.constructor | app/explore/page.tsx:24 | The page starts at 1. |
| Explore.Pagination.PreviousDisabled | app/explore/page.tsx:242-243 | Previous is disabled exactly on page 1, which is exactly where pressing it would leave the page unchanged. |
| Explore.Pagination.Previous | app/explore/page.tsx:242 | The page becomes `max(1, p - 1)` and stays ≥ 1. At page 1 it is a no-op. |
| Explore.Pagination.Next | app/explore/page.tsx:253 | The page grows by one. The invariant `1 ≤ page ≤ 1 + Next presses` is kept. |

## Left out

- Cytoscape is left out: the layout, the style callbacks as engine hooks, tap selection, the selected-node panel, zoom, and the PNG export (political-linkages.tsx:169-290 and the panels). That is a foreign library plus DOM side effects; only the width rule of line 228 and the `getTypeColor` lookup called by the colour callback of line 211 (`TypeColor` of the hyperedge node's type) are modelled.
- The dynamic `import("cytoscape")` and the effect teardown are left out, because they are module loading.
- The `setInterval` timing of the tickers is left out. A tick is a method call, and the number of ticks is a ghost counter.
- All JSX, Tailwind composition beyond the lookup tables, `Link`, `Image` and routing are left out, because they are presentation.
- FlaggedUpdates.ToLower: models `toLowerCase` on ASCII letters only. Full Unicode case mapping is out of reach here.
- `dateFrom`, `dateTo` and `date-fns` formatting are not used by the filter. They are kept only as fields that Clear Filters resets.
- The six hard-coded flagged reports are not restated as data. The filter, counts and lookups are proved for every report list instead, because restating the long literal records adds no property.
- The explore page's grid, list and map view mode is left out, because it only selects markup. The same goes for its hard-coded politician list.
- PoliticalLinkages.TypeColor: the source indexes a plain object, so a type named like an inherited object property (for example `"constructor"`) would return that property rather than grey. The model treats every unlisted string as unlisted.
- Explore.PartyColor: the same caveat about inherited object properties applies to the party table.
- PoliticalLinkages.EdgeWidth: strength is a real, so a NaN strength is not modelled. In the source it would give a NaN width through `Math.max`.
- The five hyperedges hard-coded in the linkage component (political-linkages.tsx:45-86) are not restated as data. The graph build, the connection counts and the badges take the hyperedge list as a parameter and are proved for every list.
- ScoreCard.ScoreColor: NaN and infinite scores are not modelled, because scores are reals.
- ScoreCard.ConfidenceColor: NaN and infinite confidences are not modelled either, for the same reason.
- The other fields of `Settings` are left out, because none of them is read by the list properties. So are pydantic environment loading, `.env` handling and the `get_settings` cache, which are environment I/O.
- `security.py`, the SQLAlchemy models, `database.py`, the middleware, the search page, the score-breakdown chart and the static components are left out. They hold no logic beyond library calls and markup.
- AlertTicker.Ticker: the alert list is a constructor argument rather than always the three built-in alerts, so that the empty-list guard is reachable. `SampleAlerts` is the built-in list.
