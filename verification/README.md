# Company directory dashboard: a Dafny model of its logic

The repository is a small dashboard of AI infrastructure companies (a React
front end over a hosted table) plus a handful of batch scripts that maintain
the table. This project models the parts of it that are logic rather than
plumbing, as pure Dafny functions over immutable datatypes, and proves what
the code promises about them:

- **The dashboard view** (`src/App.jsx`): the five capability filters and
  `toggleFilter`, the conjunctive filter with its strict `=== true` test,
  the keyed ascending/descending sort handed to the runtime's stable sort,
  the `handleSort` header state machine, and the funding figures merged onto
  every fetched row.
- **Adding a company** (`src/components/AddCompanyForm.jsx`): the initial
  form, `handleChange`, the ordered guard chain of `handleSubmit`, the
  `https://` normalisation of the website, the record handed to the insert
  and the handling of the insert's answer.
- **Signing in** (`src/components/Login.jsx`): the three modes, the links
  between them, the field reset of `switchMode`/`resetForm`, and the
  per-mode requests, checks, messages and loading flag of `handleSubmit`.
- **The headline scripts** (`scripts/update-headlines-function.js`,
  `scripts/update-headlines.js`): the page text assembled for the completion
  prompt, the 1500-character snippet, the clean-up of the completion's
  answer, the hero-text candidate selection, and the shared batch loop that
  skips rows with a headline or without a website.
- **The funding scripts** (`scripts/add-funding-column.js`,
  `scripts/update-funding-data.js`): the case-insensitive first-match lookup
  and per-company update plan, and the non-greedy first-match replacement of
  the page's `fundingData` block by a generated 16-entry block.

Everything the code gets from outside is a parameter: the backend's answers
(`Result`/reply datatypes), the signed-in user and admin flag, the generated
id, the current year and date, the page origin, a loaded web page (as
functions from selector to matched texts or elements), the completion
service's reply to a prompt, and the file read by the funding script. Side
effects (updates, writes) are returned as plans: the sequence of updates the
script would issue, or the text it would write.

Funding figures are held exactly as whole tenths of a million
(`Amount(385)` is 38.5). Strings are `seq<char>`; JavaScript's `trim`
whitespace set is written out by code point.

Files: `wrappers.dfy` (Option, Result), `text.dfy` (trim, indexOf/split,
substring, ASCII lower-casing, character order, number rendering),
`records.dfy` (the company row), `filters.dfy`, `sorting.dfy`,
`dashboard.dfy`, `add_company.dfy`, `login.dfy`, `headline_rows.dfy` (the
batch loop both headline scripts share), `tagline_script.dfy`,
`hero_script.dfy`, `funding_column.dfy`, `funding_block.dfy`.

## Model

| member | source | states |
|---|---|---|
| Filters.InitiallyNoneActive | src/App.jsx:95-101 | no capability flag is required in the initial filter state |
| Filters.Toggle | src/App.jsx:183-188 | `toggleFilter(f)` flips flag `f` and every other flag keeps its value |
| Filters.ToggleTwice | src/App.jsx:183-188 | toggling the same flag twice gives back the original filter state |
| Filters.ToggleCommutes | src/App.jsx:183-188 | toggles of two flags can be applied in either order |
| Filters.FilterSetExtensional | src/App.jsx:95-101 | a filter state is determined by which flags it requires |
| Filters.SomeActive | src/App.jsx:159 | the `some(value => value)` scan is true iff some listed flag is required |
| Filters.AnyActive | src/App.jsx:159 | `anyFilterActive` holds iff at least one of the five flags is required |
| Filters.EveryRequired | src/App.jsx:162-165 | the `every` callback holds iff each required listed flag is `true` in the company |
| Filters.Passes | src/App.jsx:161-166 | a company passes iff every required flag is strictly `Bool(true)` in it; truthy strings or numbers do not count |
| Filters.KeepPassing | src/App.jsx:161-166 | the filter never lengthens the list |
| Filters.KeepPassingCounts | src/App.jsx:161-166 | each company occurs in the filtered list as often as in the input when it passes, and not at all otherwise |
| Filters.ApplyFilters | src/App.jsx:156-167 | the filtering step yields a sub-multiset of the input holding exactly the passing companies with their multiplicities |
| Filters.KeepPassingNoneActive | src/App.jsx:159-160 | with no flag required every company passes, so the filter keeps the list unchanged |
| Filters.ApplyFiltersIsKeepPassing | src/App.jsx:159-167 | the `anyFilterActive` shortcut gives the same list as always running the filter |
| Records.AllFlagsListsEveryFlag | src/App.jsx:95-101 | the filter state's entries cover every capability flag |
| Sorting.HandleSort | src/App.jsx:190-195 | a click sorts by the clicked column; same column while ascending gives descending, same column while descending gives ascending, another column gives ascending |
| Sorting.HandleSortTwice | src/App.jsx:190-195 | clicking the active column twice restores the sort configuration |
| Sorting.HandleSortNewColumnTwice | src/App.jsx:190-195 | clicking a new column twice leaves it sorted descending |
| Text.LexLessIrreflexive | src/App.jsx:171-176 | no string is `<` itself under character order |
| Text.LexLessTransitive | src/App.jsx:171-176 | string `<` is transitive |
| Text.LexLessTotal | src/App.jsx:171-176 | two different strings are ordered one way or the other |
| Sorting.KeyLessIrreflexive | src/App.jsx:171-176 | no key value is `<` itself |
| Sorting.KeyLessTransitive | src/App.jsx:171-176 | key `<` is transitive |
| Sorting.KeyLessTotal | src/App.jsx:171-176 | two different key values are ordered one way or the other |
| Sorting.CompareMeaning | src/App.jsx:170-178 | the comparator is negative, zero or positive exactly when the first company belongs before, level with or after the second, with the sides swapped for descending |
| Sorting.LtTransitive | src/App.jsx:170-178 | "belongs strictly before" is transitive, for either direction |
| Sorting.LtIrreflexive | src/App.jsx:170-178 | no company belongs strictly before itself |
| Sorting.InOrderAntisymmetric | src/App.jsx:170-178 | two companies each in order with the other share the sort key |
| Sorting.TiesAppend | src/App.jsx:170-178 | the tie group of a concatenation is the concatenation of the tie groups |
| Sorting.InsertPermutes | src/App.jsx:170-178 | inserting one company adds exactly that company |
| Sorting.InsertSorted | src/App.jsx:170-178 | inserting into a sorted list keeps it sorted |
| Sorting.InsertStable | src/App.jsx:170-178 | the inserted company goes after every company with the same key |
| Sorting.TiesNoneAfterStrictlyEarlier | src/App.jsx:170-178 | a company that belongs before the head of a sorted list shares its key with none of it |
| Sorting.TiesEmpty | src/App.jsx:170-178 | a list with no company of key `k` has an empty tie group for `k` |
| Sorting.Sort | src/App.jsx:170-178 | the sorted list is ordered by the configured key and direction, is a permutation of the input, and keeps every group of equal keys in input order |
| Sorting.HeadInOrder | src/App.jsx:170-178 | the head of a sorted list is in order with each of its members |
| Sorting.SameHead | src/App.jsx:170-178 | two sorted permutations agreeing on all tie groups start with the same company |
| Sorting.SameTailTies | src/App.jsx:170-178 | removing a common head keeps the tie groups equal |
| Sorting.SortedTail | src/App.jsx:170-178 | the tail of a sorted list is sorted and holds the other companies |
| Sorting.StableSortUnique | src/App.jsx:170-178 | a sorted, stable permutation of a list is unique |
| Sorting.SortIsTheStableSort | src/App.jsx:170-178 | any stable sort with this comparator returns the modelled list |
| Dashboard.Enrich | src/App.jsx:142-145 | every row keeps all its fields except `funding_amount`, which is the table figure for exactly that name, or `null` when the name is missing or its figure is zero |
| Dashboard.EnrichIdempotent | src/App.jsx:142-145 | a stored `funding_amount` is ignored, so enriching twice is enriching once |
| Dashboard.EnrichIsCaseSensitive | src/App.jsx:104-122 | "RunPod" gets 38.5 and "runpod" gets nothing |
| Dashboard.FetchCompanies | src/App.jsx:132-153 | loading ends either way; on success the list is the enriched rows, on failure the old list stays; filters and sort are untouched |
| Dashboard.TiesOfKeepPassing | src/App.jsx:161-178 | filtering commutes with taking a tie group |
| Dashboard.KeepPassingAppend | src/App.jsx:161-166 | filtering a concatenation filters each part |
| Dashboard.View | src/App.jsx:155-181 | the visible list holds each passing company as often as the input and no other, is sorted, and keeps ties in input order |
| Dashboard.ViewWithoutFilters | src/App.jsx:156-160 | with no flag required the visible list is the whole list, sorted |
| Dashboard.FirstLoadShowsEverything | src/App.jsx:94-101 | after the first fetch every enriched row is shown, ordered by name ascending |
| Dashboard.ToggleTwiceRestoresView | src/App.jsx:183-188 | requiring then releasing a flag gives back the same visible list |
| Dashboard.TruthyIsNotTrue | src/App.jsx:164 | a company whose required capability is anything but `true` is not shown |
| AddCompany.InitialForm | src/components/AddCompanyForm.jsx:8-18 | the initial form has empty text fields, every flag unchecked and the current year as founding year |
| AddCompany.HandleChange | src/components/AddCompanyForm.jsx:23-29 | the named field takes `checked` for a checkbox and `value` otherwise; every other field is unchanged |
| AddCompany.FormExtensional | src/components/AddCompanyForm.jsx:8-18 | a form is determined by its field values |
| AddCompany.HandleChangeSameValue | src/components/AddCompanyForm.jsx:23-29 | re-sending a field's current value changes nothing |
| AddCompany.NormalizeWebsite | src/components/AddCompanyForm.jsx:55-58 | the result always starts with `http://` or `https://`; a website with a scheme is kept, any other gets `https://` in front |
| AddCompany.NormalizeIdempotent | src/components/AddCompanyForm.jsx:55-58 | normalising twice is normalising once |
| AddCompany.NormalizeKeepsLeadingSpace | src/components/AddCompanyForm.jsx:51-57 | the scheme test reads the untrimmed website, so leading whitespace survives behind `https://` |
| AddCompany.SetWebsiteKeepsOthers | src/components/AddCompanyForm.jsx:57 | rewriting the website touches no other field |
| AddCompany.Prepare | src/components/AddCompanyForm.jsx:38-65 | the guards run in order (not signed in, not admin, blank name, blank website) and the first failing one gives its message; otherwise the record is the form with the normalised website, the new id and `created_by` set to the user's id |
| AddCompany.HandleSubmit | src/components/AddCompanyForm.jsx:31-88 | nothing is inserted unless every guard passes; `onCompanyAdded` gets `data[0]` only when rows come back; no rows gives "Failed to create company", an error without a message gives "Failed to add company"; submitting ends on every path |
| AddCompany.AdminGate | src/components/AddCompanyForm.jsx:42-44 | a non-admin session never inserts or adds a company |
| AddCompany.BlankNameRefused | src/components/AddCompanyForm.jsx:47-49 | a blank name is refused with its message and nothing is inserted |
| AddCompany.BareWebsiteGetsHttps | src/components/AddCompanyForm.jsx:55-58 | every non-blank website that does not start with `http://` or `https://`, including one starting with `h` or with whitespace, is submitted with `https://` in front |
| AddCompany.ExampleWebsite | src/components/AddCompanyForm.jsx:55-58 | `example.com` becomes `https://example.com` |
| Login.SwitchMode | src/components/Login.jsx:13-24 | a switch sets the new mode and clears the three fields, the error and the message |
| Login.SwitchForgetsInput | src/components/Login.jsx:13-24 | nothing typed before a switch survives it |
| Login.OfferedTransitions | src/components/Login.jsx:137-182 | every link leads to another mode, sign-in offers exactly reset and sign-up, sign-up and reset offer exactly sign-in, and there is no link between sign-up and reset |
| Login.FollowEndsInLastMode | src/components/Login.jsx:21-24 | after a run of link clicks the dialog is in the last mode clicked with its fields cleared |
| Login.SignUpResetGoThroughSignIn | src/components/Login.jsx:137-182 | any path of offered links between sign-up and reset passes through sign-in |
| Login.FieldsShown | src/components/Login.jsx:93-108 | the password input is shown exactly in sign-in and sign-up, the confirmation input exactly in sign-up |
| Login.BeginSubmit | src/components/Login.jsx:28-30 | submitting clears error and message, sets loading and keeps the rest |
| Login.HandleSubmit | src/components/Login.jsx:26-68 | per mode the request sent, the mismatch check before any sign-up request, closing only on a successful sign-in, the success messages, the per-mode fallback error text, never both error and message, and loading false on every path |
| Login.MismatchNeedsNoProvider | src/components/Login.jsx:43-45 | a sign-up with differing passwords fails the same way whatever the provider would answer |
| Login.OnlySignInCloses | src/components/Login.jsx:40 | sign-up and reset never close the dialog |
| Text.Trim | src/components/AddCompanyForm.jsx:47-53 | `trim` returns the middle piece of the text with no whitespace at either end, and only whitespace is removed |
| Text.TrimKeepsTrimmed | scripts/update-headlines-function.js:146 | trimming trimmed text changes nothing |
| Text.TrimIdempotent | scripts/update-headlines-function.js:139-146 | trimming twice is trimming once |
| Text.TrimDropsLeadingSpace | scripts/update-headlines-function.js:139-146 | a leading whitespace character makes no difference to the trimmed text |
| Text.TrimKeepsNonSpace | src/components/AddCompanyForm.jsx:51-57 | a non-whitespace character occurs in the trimmed text iff it occurs in the text |
| Text.IndexOf | scripts/update-headlines-function.js:139-144 | the first position of a character, or none iff it does not occur |
| Text.BeforeFirst | scripts/update-headlines-function.js:139-144 | `split(c)[0]` is the prefix before the first `c`, or the whole text without one |
| Text.Take | scripts/update-headlines-function.js:64-105 | `substring(0, n)` and the `min(length, n)` loop bound both take the prefix of length `min(n, length)` |
| Text.FindFrom | scripts/update-funding-data.js:39 | the first occurrence of a pattern at or after a position, or none iff there is none |
| Text.Lower | scripts/add-funding-column.js:53-55 | lower-casing maps each character and keeps the length |
| Text.LowerIdempotent | scripts/add-funding-column.js:53-55 | lower-casing twice is lower-casing once |
| Text.NatToStringRoundTrip | scripts/update-funding-data.js:44-59 | the decimal digits written for a whole number read back as that number |
| HeadlineRows.PlanUpdates | scripts/update-headlines.js:103-136 | rows with a truthy headline or a falsy website are skipped before any extraction; exactly the other rows' websites are visited; an update is issued for exactly those rows whose extraction yields a truthy text, with that text and the row's id |
| HeadlineRows.UpdatesAreNonEmpty | scripts/update-headlines.js:119-126 | every headline written is non-empty |
| HeadlineRows.ApplyAllEffect | scripts/update-headlines.js:123-126 | applying the updates changes only headlines, gives every updated row a truthy headline, and leaves every other row unchanged |
| HeadlineRows.SecondRunUpdatesNothing | scripts/update-headlines.js:103-136 | with the same extraction, running the loop again over the updated table issues no update |
| HeroScript.FirstQualifyingNone | scripts/update-headlines.js:57-64 | the element scan finds nothing iff no element is visible with a trimmed text strictly between 5 and 200 characters |
| HeroScript.FirstQualifyingWitness | scripts/update-headlines.js:57-64 | what the element scan finds is the trimmed text of a qualifying element before which none qualifies |
| HeroScript.FirstQualifyingMeaning | scripts/update-headlines.js:57-64 | both halves of the element scan's meaning together |
| HeroScript.FirstQualifyingShape | scripts/update-headlines.js:59-61 | a found text is trimmed and strictly between 5 and 200 characters long |
| HeroScript.FirstQualifyingAppend | scripts/update-headlines.js:53-77 | scanning two lists in a row finds the first list's result when it has one |
| HeroScript.HeroText | scripts/update-headlines.js:37-80 | the page yields a trimmed text of length strictly between 5 and 200, or `null` iff no candidate of any selector or of the fallback headings qualifies |
| HeroScript.FirstQualifyingIn | scripts/update-headlines.js:57-64 | the inner loop returns the first qualifying element's trimmed text, which belongs to a qualifying element |
| HeroScript.ExtractHeroText | scripts/update-headlines.js:53-79 | the nested loops over selectors and elements, then over the fallback headings, compute the first qualifying candidate in selector then document order |
| HeroScript.PrefixDecides | scripts/update-headlines.js:53-66 | once the selectors up to some point yield a text, later selectors do not matter |
| HeroScript.MatchesAppend | scripts/update-headlines.js:53-77 | the candidates of two runs of selectors are the first run's then the second's |
| HeroScript.EarlierSelectorWins | scripts/update-headlines.js:53-66 | a qualifying element of an earlier selector wins over every later selector and the fallback |
| HeroScript.HeroTextAt | scripts/update-headlines.js:15-88 | a failed page load gives `null`; a text is trimmed and within the length bounds |
| HeroScript.UpdateHeadlines | scripts/update-headlines.js:91-142 | nothing happens when the row query fails; every written headline is trimmed and strictly between 5 and 200 characters; an update is issued for exactly the rows needing a headline whose page yields a hero text, with that text |
| TaglineScript.Lines | scripts/update-headlines-function.js:64-70 | one newline per text is appended, so a non-empty run of texts never gives empty text |
| TaglineScript.LinesOne | scripts/update-headlines-function.js:64-66 | a single text becomes that text followed by a newline |
| TaglineScript.LinesAppend | scripts/update-headlines-function.js:64-70 | the lines of two runs of texts are the first run's lines followed by the second's |
| TaglineScript.Matched | scripts/update-headlines-function.js:50-56 | the matched texts are exactly the texts of the selectors that matched, at most one per selector |
| TaglineScript.HeroBlock | scripts/update-headlines-function.js:50-56 | the hero text is empty iff no hero selector matched, even when a matched element's text is empty |
| TaglineScript.HeroBlockIsLines | scripts/update-headlines-function.js:50-56 | the hero text is each matched container's text followed by a newline, in selector order |
| TaglineScript.HeroBlockAppend | scripts/update-headlines-function.js:50-56 | trying two runs of selectors in turn appends the second run's text to the first's |
| TaglineScript.TrimKeepsTrimmedEnd | scripts/update-headlines-function.js:73-76 | trimming text that ends in a non-empty trimmed title keeps the title at the end |
| TaglineScript.PageText | scripts/update-headlines-function.js:50-76 | the page text is trimmed and ends with the page title whenever the title is trimmed and non-empty |
| TaglineScript.PageTextFromHero | scripts/update-headlines-function.js:50-76 | when a hero container matched, the page text is the matched texts, one per line in selector order, then the title, trimmed |
| TaglineScript.HeroMatchIgnoresBody | scripts/update-headlines-function.js:59-71 | when a hero selector matched, headings and paragraphs are not read |
| TaglineScript.NoHeroUsesFallback | scripts/update-headlines-function.js:59-76 | without a hero match, on any page, the text is the lines of up to three headings, then up to three paragraphs, then the title, trimmed |
| TaglineScript.FallbackReadsAtMostThree | scripts/update-headlines-function.js:59-71 | without a hero match, headings or paragraphs beyond the third are never read |
| TaglineScript.EmptyHeroStillCounts | scripts/update-headlines-function.js:52-59 | a matched hero element with empty text still suppresses the fallback |
| TaglineScript.WebsiteContent | scripts/update-headlines-function.js:19-85 | a text is returned iff the page loaded, and it is trimmed |
| TaglineScript.Prompt | scripts/update-headlines-function.js:100-111 | the prompt embeds the company name and exactly the first 1500 characters of the content at fixed places |
| TaglineScript.PromptSeesOnlySnippet | scripts/update-headlines-function.js:105 | contents agreeing on their first 1500 characters give the same prompt |
| TaglineScript.FirstTruthy | scripts/update-headlines-function.js:136 | `output || text || completion || ""` is the first truthy candidate, empty iff none is truthy |
| TaglineScript.CutOccurs | scripts/update-headlines-function.js:139-144 | a cut at a character is a piece of the text before that character's first occurrence and no longer holds it |
| TaglineScript.CleanTagline | scripts/update-headlines-function.js:139-146 | the cleaned tagline holds no `[` and no line break, is trimmed, lies within the text before the first `[`, and for an answer without `[` is its first line trimmed |
| TaglineScript.LineCutOccurs | scripts/update-headlines-function.js:142-144 | the first line of a text, trimmed, is a piece of that text |
| TaglineScript.CleanWithin | scripts/update-headlines-function.js:139-146 | the cleaned text lies inside the text before the first `[`, and so inside the answer |
| TaglineScript.CleanAbsent | scripts/update-headlines-function.js:139-146 | the cleaned text holds neither a `[` nor a line break |
| TaglineScript.FirstLineOfBracketFree | scripts/update-headlines-function.js:142-146 | without a `[` the clean-up keeps the first line, trimmed |
| TaglineScript.FirstLineKept | scripts/update-headlines-function.js:142-146 | an answer of several lines without a citation gives its first line, trimmed |
| TaglineScript.CleanSeesOnlyBeforeCitation | scripts/update-headlines-function.js:139-146 | an answer is cleaned exactly as its trimmed text before the first `[` is |
| TaglineScript.CitationDropped | scripts/update-headlines-function.js:139-141 | a one-line answer followed by a citation keeps only the trimmed line |
| TaglineScript.LeadingLineBreak | scripts/update-headlines-function.js:139-144 | an answer starting with a line break comes out empty, unless it holds a `[`, whose cut trims the break away first |
| TaglineScript.ExtractTagline | scripts/update-headlines-function.js:88-151 | a prompt is sent iff the content and the key are truthy; a tagline comes back iff the service answered without error or throw, and it is the cleaned first truthy answer field |
| TaglineScript.TaglineShape | scripts/update-headlines-function.js:139-146 | a returned tagline is one trimmed line without `[` |
| TaglineScript.HeadlineFor | scripts/update-headlines-function.js:180-188 | a headline is produced only when the page text and the key are truthy, and it is a clean tagline |
| TaglineScript.UpdateHeadlines | scripts/update-headlines-function.js:154-217 | nothing happens when the row query fails; exactly the rows needing a headline are visited; an update is issued for exactly the visited rows whose headline is truthy, with that headline; every written headline is a non-empty clean line; without a key nothing is written |
| FundingColumn.FindFunding | scripts/add-funding-column.js:53-55 | the match is the first entry whose lower-cased name equals the lower-cased company name, or none iff no entry does |
| FundingColumn.FindIgnoresCase | scripts/add-funding-column.js:54 | names equal after lower-casing find the same entry |
| FundingColumn.PlanRows | scripts/add-funding-column.js:51-74 | one funding update, carrying the row's id and the matched figure, for exactly the rows with a match |
| FundingColumn.PlanRowsAppend | scripts/add-funding-column.js:51-74 | updates are issued in row order, and a failed update does not stop later rows |
| FundingColumn.PlanFunding | scripts/add-funding-column.js:34-80 | a failed row query gives no update; otherwise an update for exactly the matched companies |
| FundingColumn.RunPodInAnyCase | scripts/add-funding-column.js:14-55 | any casing of "RunPod" gets RunPod's figure, 18 |
| FundingBlock.Scan | scripts/update-funding-data.js:39 | a match starts at the first opener and runs to the first closer after it; there is no match iff no opener is followed by a closer |
| FundingBlock.ScanFinds | scripts/update-funding-data.js:39 | the match is determined by the first opener and the first closer after it |
| FundingBlock.ReplaceBlock | scripts/update-funding-data.js:63 | without a match the text is unchanged; otherwise the text before and after the match is kept and the block sits in its place |
| FundingBlock.OpenerBrace | scripts/update-funding-data.js:39 | the opener's only `{` is its last character |
| FundingBlock.SpliceKeepsOpenerFirst | scripts/update-funding-data.js:39-63 | splicing a block that starts with the opener creates no earlier opener |
| FundingBlock.SpliceCloserFirst | scripts/update-funding-data.js:39-63 | the spliced well-formed block's own closer is the first after its opener |
| FundingBlock.ReplaceIdempotent | scripts/update-funding-data.js:39-63 | replacing twice with a well-formed block is replacing once |
| FundingBlock.Render | scripts/update-funding-data.js:44-59 | an interpolated figure is written in JavaScript's shortest form: digits only for whole millions, otherwise one point followed by a single last digit, and no leading zero unless the figure is below one million |
| FundingBlock.RenderRoundTrip | scripts/update-funding-data.js:44-59 | the figure written reads back as the same figure |
| FundingBlock.EntryLineCarriesFigure | scripts/update-funding-data.js:44-59 | an entry line writes its quoted name followed by exactly that name's figure |
| FundingBlock.TemplateLines | scripts/update-funding-data.js:44-59 | each of the 16 template lines names a researched company and has no `}` |
| FundingBlock.TemplateBraceFree | scripts/update-funding-data.js:44-59 | no name or comment of the template holds a `}` |
| FundingBlock.EntryLinesHaveNoBrace | scripts/update-funding-data.js:44-59 | entry lines built from brace-free names and comments hold no `}` |
| FundingBlock.FramedBlockWellFormed | scripts/update-funding-data.js:42-60 | opener, a body without `}`, closer: the pattern matches the whole block |
| FundingBlock.BlockWellFormed | scripts/update-funding-data.js:42-60 | the generated block for brace-free lines and date is itself a match of the pattern |
| FundingBlock.GeneratedBlockWellFormed | scripts/update-funding-data.js:42-60 | with a date free of `}`, the generated block is a match of the pattern |
| FundingBlock.PageTableIsAccurate | src/App.jsx:104-122 | the page's table holds exactly the researched names and figures |
| FundingBlock.TemplateCoversAccurate | scripts/update-funding-data.js:8-59 | the template writes exactly the researched names |
| FundingBlock.ResearchedNameWritten | scripts/update-funding-data.js:8-59 | every researched name has a template line |
| FundingBlock.TemplateFiguresAreResearched | scripts/update-funding-data.js:8-59 | every template line writes a researched name followed by that name's researched figure |
| FundingBlock.UpdateAppSource | scripts/update-funding-data.js:32-73 | nothing is written when reading fails; a file without a match is written back unchanged; otherwise the generated block stands where the match started |
| FundingBlock.SecondRunChangesNothing | scripts/update-funding-data.js:32-73 | running the script twice on the same day writes what the first run wrote |

## Left out

- The hosted backend (selects, inserts, updates, authentication): its answers are parameters, and the scripts' updates are returned as plans. An update error is only logged in every script, so no plan depends on the answers to updates.
- The headless browser (launch, navigation, the 30-second timeout, the 2-second waits, `page.waitForTimeout`) and the DOM: a loaded page is a function from selector to matched element texts (`offsetParent !== null` as a `visible` flag, `textContent`/`innerText` as text). A failed launch, navigation or evaluation is a `None` page.
- The completion service and the language model: the service's reply to a prompt is a parameter (`ServiceReply`), as is the API key.
- The filesystem, `new Date()` and `uuidv4()`: the file read, the current year, the ISO date and the new id are parameters. A failed write is only logged and is not modelled.
- Asynchrony: each handler is modelled as the state after it completes. Intermediate renders (loading shown, an error displayed before the request returns) are not.
- Rendering and markup, the view-mode buttons, `Sidebar.jsx`, `UserProfile.jsx`, `CompanyDataTable.jsx` and `scripts/fix-headlines.js` (a fixed pair of row updates): no logic worth stating.
- Floating point: funding figures are whole tenths of a million, which covers every figure in the tables.
- Sorting.KeyLess: each sort key has one value type (strings for name and headline, integers for the year). JavaScript's `<` between `null` or mixed types is not modelled.
- Text.Lower: lower-cases ASCII letters only; Unicode case mapping is not modelled.
- Text.Trim: strings are sequences of characters, so lengths and `substring(0, 1500)` count characters, not UTF-16 code units, and Unicode whitespace beyond the characters listed in `IsSpace` is not recognised.
- Text.LexLess: strings are compared character by character (Unicode scalar values); JavaScript compares UTF-16 code units, which orders characters outside the Basic Multilingual Plane differently, and surrogate pairs are not modelled.
- Dashboard.FundingFor: the lookup is on the model's map only; prototype keys such as `constructor` are not modelled.
- FundingBlock.ReplaceBlock: `String.prototype.replace` interprets `$` patterns in the replacement text. The generated block contains no `$$`, `$&`, `` $` `` or `$'`, and the pattern has no capture groups, so every `$` is written literally; the model inserts the block as text.
- HeadlineRows.PlanUpdates: states which websites are visited and which updates are issued, not the order in which they are issued or how often a repeated website is visited.
- The rate-limiting delay between companies in `scripts/update-headlines-function.js` is timing only.
