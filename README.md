# Domain monitor: decision logic in Dafny

`monitor.py` is a batch uptime monitor for a list of storefront domains. Each run does four things:

1. It reads a line-oriented target list and turns every usable line into one canonical URL, `scheme://host` plus a fixed check path. Repeated URLs are dropped, keeping first occurrences, and an empty result is an error.
2. It loads every URL in a headless browser once. From the response status, the page text and any exception, it derives a failure reason. A missing reason means success.
3. It merges each `(url, status, reason)` result into a persistent health record per URL. A success resets the record. A failure raises its failure count. An `ERROR:` reason or a 404 status takes the target DOWN at once. Any other failure only does so once the count reaches the failure threshold.
4. In report mode, it renders a text summary. The summary counts UP, FAIL_TMP and DOWN records and lists the domain of every record that is not UP under one of seven reason groups. The groups come in a fixed order, with their domains sorted.

This project models steps 1 to 4 and proves their properties. Configuration (`CHECK_PATH`, `TIMEOUT_MS`, `FAIL_THRESHOLD`, `FAIL_KEYWORDS`) comes in as a `Settings.Config` value. The clock comes in as a timestamp string `now`. What the browser produced for one target comes in as a `Probe.Attempt` value.

Modules:

- `Wrappers`: `Option` and `Result`.
- `Text`: the Python string behaviour the program relies on. This covers `strip`, ASCII `lower`, substring `in`, `str(int)`, `"\n".join`, code-point string order and `sorted` of a set of strings.
- `Settings`: the configuration and its defaults.
- `Targets`: `normalize_url`, the slice of `urlsplit` it uses, `only_domain`, and the filtering, empty-list check and de-duplication of `read_domains`.
- `Probe`: the pure part of `check_one`.
- `Health`: `is_instant_down`, `classify`, the state-update loop of `run_checks`, and the hysteresis over successive runs.
- `Summary`: `reason_group` and `build_summary`.

Five behaviours of the code are easy to misread:

- `normalize_url` keeps an `http://` scheme as written and the host's letter case. So `example.com`, `http://example.com/x` and `  https://Example.com  ` give three different URLs. `Targets.NormalizeUrlCases` states the rule.
- `check_one` has no reason of its own for a missing response or an empty page. It checks keywords first, then 404, then 500 and above. A load with no response and no keyword is a success.
- Each group's domains are sorted alphabetically and every domain is printed, however many there are.
- A record that is DOWN because its count reached the threshold, without an instant-down flag, is counted as DOWN but listed under a FAIL_TMP heading. `Summary.GroupVersusClass` states this.
- Groups hold domains, not URLs. Two records with one domain, such as those of `a.test` and `http://a.test`, can list that domain under two headings, or once under a heading whose count is then below the records it stands for. `Summary.SharedDomainTwoGroups` and `Summary.SharedDomainCountedOnce` state this.

## Model

| member | source | states |
|---|---|---|
| Text.Strip | monitor.py:40 | `str.strip()` over Python's whitespace; no contract of its own, `Text.StripMiddle` states which part of the line it keeps and `Text.StripBlank` when that part is empty |
| Text.StripMiddle | monitor.py:40 | `line.strip()` is a contiguous middle of the line, and everything before and after it is whitespace |
| Text.StripBlank | monitor.py:40-41 | a stripped line is empty exactly when every character is Python whitespace; otherwise it neither starts nor ends with whitespace |
| Text.Lower | monitor.py:165 | ASCII `str.lower()`; its contract keeps the length, and the non-ASCII gap is under Left out |
| Text.Contains | monitor.py:167 | Python's `k in low`; no contract of its own, `Text.ContainsIffWindow` states its meaning |
| Text.WindowContains | monitor.py:167 | if `k` occupies some window of `low`, the recursive substring test holds |
| Text.ContainsWindow | monitor.py:167 | if the recursive substring test holds, `k` occupies some window of `low` |
| Text.ContainsIffWindow | monitor.py:167 | `k in low` holds exactly when `k` occupies some window of `low` |
| Text.NatToStringValue | monitor.py:176 | the decimal text of a natural number reads back as that number |
| Text.IntToString | monitor.py:176 | `str(n)` on an integer; its contract says the text is non-empty, and `Text.IntToStringValue` states what it denotes |
| Text.IntToStringValue | monitor.py:265-266 | `str(n)` is all digits denoting `n` for `n >= 0`, and `-` followed by the digits of `-n` otherwise |
| Text.Join | monitor.py:291 | `sep.join(parts)`: the parts with `sep` between neighbours; no contract of its own; `Summary.EmptyStateText` states the joined text of a four-line report |
| Text.LexLess | monitor.py:281 | Python's `<` on `str`: code point by code point, a proper prefix first; no contract of its own, `Text.LexLessIrreflexive`, `Text.LexLessTransitive` and `Text.LexLessTotal` state that it is a strict total order |
| Text.LexLessIrreflexive | monitor.py:281 | no string sorts before itself |
| Text.LexLessAsymmetric | monitor.py:281 | of two strings, at most one sorts before the other |
| Text.LexLessTotal | monitor.py:281 | of two different strings, one sorts before the other |
| Text.LexLessTransitive | monitor.py:281 | string order is transitive |
| Text.LeastExists | monitor.py:281 | every non-empty set of strings has a least element |
| Text.SortedSeq | monitor.py:281 | `sorted` of a set of strings; its contract keeps the size, and `Text.SortedSeqSpec` states that it lists the set once each in increasing order |
| Text.SortedSeqSpec | monitor.py:281 | `sorted` of a set lists its elements exactly once each, in strictly increasing order |
| Text.ConsSorted | monitor.py:281 | a string below every element of a strictly sorted list, put in front, leaves it strictly sorted |
| Text.SortedSeqFirst | monitor.py:281 | the sorted listing of a set starts with its least element, followed by the sorted rest |
| Text.TakeLeast | monitor.py:281 | one step of `sorted`: a member of the set that its sorted listing starts with, followed by the sorted rest |
| Text.SortStrings | monitor.py:281 | picking the least remaining string until none is left yields `sorted` of the set |
| Targets.Cleaned | monitor.py:45-46 | the text `urlsplit` parses after stripping leading C0 controls and spaces and deleting tab/CR/LF; no contract of its own, `Targets.CleanedSafeHead` states its effect on a URL with a scheme |
| Targets.UrlScheme | monitor.py:45 | the scheme `urlsplit` finds; no contract of its own, `Targets.UrlSchemeOfSchemed` states it |
| Targets.UrlNetloc | monitor.py:45-46 | the netloc `urlsplit` finds; no contract of its own, `Targets.UrlNetlocOfSchemed` and `Targets.NetlocOfTarget` state it |
| Targets.UpToNetlocEndPrefix | monitor.py:45-46 | the host part is the longest prefix without `/`, `?` or `#` |
| Targets.UrlSchemeOfSchemed | monitor.py:45 | for any scheme `urlparse` accepts (a letter, then letters, digits, `+`, `-` or `.`), it finds that scheme, lower-cased, in `scheme://…` whatever follows |
| Targets.CleanedSafeHead | monitor.py:45 | the cleaning `urlsplit` does first leaves a head without C0 prefix or tab/CR/LF untouched and only removes tab/CR/LF from the rest |
| Targets.UrlNetlocOfSchemed | monitor.py:45-46 | the netloc `urlparse` finds in `http(s)://body` is `body`, without tab/CR/LF, up to its first `/`, `?` or `#` |
| Targets.WithScheme | monitor.py:43-44 | `https://` is put before a line that starts with neither `http://` nor `https://`; no contract of its own, `Targets.WithSchemeSplits` states it as the line's scheme, `://` and the rest of the line |
| Targets.NormalizeUrl | monitor.py:39-48 | `normalize_url(line)`; no contract of its own, `Targets.NormalizeUrlCases` states both its drop condition and the URL it builds |
| Targets.NormalizeUrlCases | monitor.py:39-48 | a line is dropped exactly when it is blank after stripping, starts with `#` or has no host; otherwise the result is its scheme (`https` unless it says `http://`), `://`, the host and the check path |
| Targets.NetlocOfTarget | monitor.py:52 | parsing a rebuilt target gives back exactly the host it was built from |
| Targets.OnlyDomain | monitor.py:50-52 | `only_domain(url)`: the lower-cased netloc; no contract of its own, `Targets.OnlyDomainOfTarget` states it for normalised targets |
| Targets.OnlyDomainOfTarget | monitor.py:50-52 | `only_domain` of a normalised target is the host `normalize_url` kept, lower-cased, for a check path starting with `/`, `?` or `#` |
| Targets.Usable | monitor.py:60-65 | the non-empty normalised lines in file order; no contract of its own, `Targets.NonEmptyMembers` and `Targets.CollectUrls` state it |
| Targets.NonEmptyMembers | monitor.py:62-65 | the collected URLs are exactly the non-empty normalised lines, and there are none exactly when every line normalises to nothing |
| Targets.FirstIndex | monitor.py:73-76 | the index found holds the URL and no earlier index does |
| Targets.Unique | monitor.py:70-77 | the de-duplicated list has exactly the members of the input and no repeats |
| Targets.UniqueOrder | monitor.py:70-77 | the de-duplicated list keeps URLs in the order of their first occurrences in the input |
| Targets.FirstIndexOfPrefix | monitor.py:73-76 | a URL that already occurs in a prefix has its first occurrence there |
| Targets.CollectUrls | monitor.py:60-65 | the first loop keeps exactly the non-empty normalised lines, in file order |
| Targets.Dedupe | monitor.py:70-77 | the loop over a `seen` set builds exactly the de-duplicated list |
| Targets.ReadDomains | monitor.py:60-77 | fails with `domains.txt is empty` exactly when no line is usable; otherwise returns the usable URLs without repeats, non-empty, and containing exactly the non-empty normalised lines |
| Probe.FirstKeyword | monitor.py:166-169 | the result is absent exactly when no keyword occurs, and otherwise is the first keyword in list order that occurs |
| Probe.PageReason | monitor.py:163-176 | the first matching keyword decides the reason whatever the status; without a match, 404 gives `HTTP_404`, then 500 and above gives `HTTP_<status>`, and everything else is success |
| Probe.ScanKeywords | monitor.py:166-169 | the loop that breaks on the first match yields `KEYWORD:` plus the first occurring keyword, or nothing |
| Probe.Outcome | monitor.py:160-190 | the triple `check_one` returns for one attempt; no contract of its own, `Probe.SuccessIff`, `Probe.ErrorReasonIff` and `Probe.CheckOne` state it |
| Probe.CheckOne | monitor.py:160-190 | the `(url, status, reason)` of one attempt: the page rule on a load, `TIMEOUT` on a timeout, `ERROR:<name>` on any other exception, with the status seen before the exception |
| Probe.SuccessIff | monitor.py:163-182 | an attempt succeeds exactly when the page loaded without any keyword and with a status that is neither 404 nor 500 or above |
| Probe.ErrorReasonIff | monitor.py:178-182 | the reason starts with `ERROR:` exactly when the attempt raised an exception other than a timeout |
| Health.IsInstantDown | monitor.py:106-112 | `is_instant_down`: an `ERROR:` reason or status 404; no contract of its own, `Health.InstantDownOfOutcome` states it over every attempt |
| Health.Classify | monitor.py:114-124 | UP exactly for no failures and no instant-down; DOWN exactly for instant-down or a count that is positive and at least the threshold; FAIL_TMP exactly in between |
| Health.NextRecord | monitor.py:214-234 | the new record carries the probe's status and reason and the run's time; its last success is `now` on success and is carried over on failure; on success the count is zero and instant-down is unset; on failure the count is the previous count plus one and instant-down is `is_instant_down` of the result; so the count is zero exactly when the probe succeeded |
| Health.Merge | monitor.py:214-234 | one iteration of the update loop: the result's URL gets `Health.NextRecord` of its previous entry; no contract of its own |
| Health.MergeAll | monitor.py:213-234 | the update loop over all results in list order; no contract of its own, `Health.MergeAllFrame`, `Health.MergeAllDistinct`, `Health.MergeAllConsistent` and `Health.MergeAllAppend` state it |
| Health.UpdateState | monitor.py:213-234 | the update loop yields the state with every result merged in list order |
| Health.RunChecks | monitor.py:192-236 | for positive `BATCH_SIZE` and `CONCURRENCY`, produces one result per domain, in domain order, from that domain's attempt; the results have distinct URLs when the domains do; the new state is those results merged into the old one |
| Health.InstantDownOfOutcome | monitor.py:106-112 | an outcome is instant-down exactly when the attempt raised an error or the status is 404 |
| Health.ClassAfterUpdate | monitor.py:114-124 | after an update the record is UP exactly when the probe succeeded, whatever the previous count; after a failure the count is the previous count plus one, and the record is DOWN exactly when the failure is instant-down or that count reaches the threshold |
| Health.MergeAllFrame | monitor.py:213-234 | URLs without a result keep their entry unchanged, and the new state's URLs are the old ones plus the results' |
| Health.MergeAllDistinct | monitor.py:213-234 | with one result per URL, each result's entry is the single update of that URL's previous entry |
| Health.MergeAllConsistent | monitor.py:217-234 | the update loop keeps every record consistent: count zero exactly when there is no reason, instant-down only with a positive count |
| Health.MergeAllAppend | monitor.py:213-234 | merging two result lists one after the other equals merging their concatenation |
| Health.Replay | monitor.py:213-234 | successive runs, each with one result for the same URL; no contract of its own, `Health.SoftStreak`, `Health.ThresholdProgression` and `Health.SuccessEndsStreak` state it |
| Health.SoftStreak | monitor.py:226-234 | a streak of failures that are not instant-down adds one to the count per run, never sets instant-down and keeps the last success time |
| Health.ThresholdProgression | monitor.py:119-124 | from no record, `k` such failures give FAIL_TMP while `k` is below the threshold and DOWN from `k == threshold` on, so DOWN is first reached at exactly the threshold |
| Health.SuccessEndsStreak | monitor.py:217-225 | one success after any history makes the record UP, clears the reason and sets the last success to that run's time |
| Summary.TimeoutGroup | monitor.py:273 | the timeout group name with `TIMEOUT_MS // 1000` seconds; no contract of its own, `Summary.GroupOrderDistinct` and `Summary.ReasonGroup` state it |
| Summary.GroupOrder | monitor.py:270-278 | the seven group names in printing order; no contract of its own, `Summary.GroupOrderDistinct` states them distinct |
| Summary.ReasonGroup | monitor.py:126-143 | the group is always one of the seven printed names; it is a DOWN group exactly when the record is instant-down, and then the 404 one exactly for status 404 |
| Summary.GroupOrderDistinct | monitor.py:270-278 | the seven group names are pairwise different |
| Summary.GroupVersusClass | monitor.py:130-143 | a DOWN group only holds DOWN records and a FAIL_TMP record always goes to a FAIL_TMP group, but a record that is DOWN by threshold alone goes to a FAIL_TMP group |
| Summary.TallyTotal | monitor.py:241-258 | the UP, FAIL_TMP and DOWN counts add up to the number of records |
| Summary.CountStep | monitor.py:251-258 | counting one more record raises exactly the count of its class |
| Summary.HeaderLines | monitor.py:263-267 | the title, counts and rule lines, with the counts as sizes of the three classes; no contract of its own, `Summary.TallyTotal` and `Summary.EmptyStateReport` state it |
| Summary.Groups | monitor.py:244-261 | each group name's set of non-UP domains; no contract of its own, `Summary.Tally` and `Summary.DomainInOneGroup` state it |
| Summary.TalliedEmpty | monitor.py:241-245 | before any record is seen, the zero counters and the empty group map agree with the empty set of records |
| Summary.TallyOne | monitor.py:247-261 | one loop iteration keeps the loop invariant: with one more record seen, the three counters are still the sizes of the classes among the records seen and each group still holds exactly the domains of the seen non-UP records filed under it |
| Summary.Tally | monitor.py:241-261 | after the first loop the counters are the sizes of the UP, FAIL_TMP and DOWN classes among all records, and each group holds exactly the domains of the non-UP records that `reason_group` files under it |
| Summary.Block | monitor.py:280-286 | the lines printed for one group; no contract of its own, `Summary.RenderBlock` states it |
| Summary.Blocks | monitor.py:280-286 | the lines printed for all groups in order; no contract of its own, `Summary.BlocksEmpty` and `Summary.BlocksAround` state it |
| Summary.RenderBullets | monitor.py:285-286 | the inner loop prints one `- domain` line per domain, in the given order |
| Summary.RenderBlock | monitor.py:280-286 | a group prints nothing when empty, else its heading with the member count followed by one bullet per domain in sorted order |
| Summary.RenderGroups | monitor.py:280-286 | the second loop prints the blocks of the groups in the fixed order |
| Summary.BlocksAgree | monitor.py:281 | the printed groups depend only on the domain sets of the groups in the order |
| Summary.ConcatEmpty | monitor.py:282-283 | concatenated blocks are empty exactly when every block is |
| Summary.BlocksEmpty | monitor.py:280-283 | no group is printed exactly when every group in the order is empty |
| Summary.BlocksAround | monitor.py:280-286 | each group's block appears between the blocks of the groups before it and those after it |
| Summary.SummaryLines | monitor.py:262-289 | the report's lines: header, printed groups, then the all-clear line when nothing else follows the header; no contract of its own, `Summary.SummaryShape` and `Summary.EveryNonUpListed` state it |
| Summary.SummaryText | monitor.py:240-291 | the report itself, the lines joined by newlines; no contract of its own, `Summary.BuildSummary` proves the two loops produce it and `Summary.EmptyStateText` states its exact text for an empty state |
| Summary.BuildSummary | monitor.py:240-291 | the whole report: three header lines, the non-empty groups in order, the all-clear line, joined by newlines |
| Summary.NoGroupsIffAllUp | monitor.py:251-283 | no group is printed exactly when every record is UP |
| Summary.SummaryShape | monitor.py:288-289 | the all-clear line is appended exactly when every record is UP |
| Summary.EveryNonUpListed | monitor.py:247-286 | every record that is not UP has its group heading and a bullet with its domain in the report |
| Summary.DomainInOneGroup | monitor.py:248-261 | a domain that no other record shares appears in its own record's group and in no other; without that hypothesis the rule fails, see `Summary.SharedDomainTwoGroups` |
| Summary.EmptyStateReport | monitor.py:240-291 | the report of an empty state is the three header lines with zero counts followed by the all-clear line |
| Summary.EmptyStateText | monitor.py:291 | the joined text of that report is the four lines with a newline between neighbours |
| Summary.SchemeVariantsDomain | monitor.py:43-52 | for a plain host, its `https://` and `http://` targets are different URLs with the same lower-cased domain |
| Summary.FiledUnder | monitor.py:248-261 | a record that is not UP puts its domain in the group `reason_group` gives it |
| Summary.SharedDomainTwoGroups | monitor.py:248-261 | the two records are what the update loop writes for a first timeout and a first 404; with the default settings, a host whose `https://` record timed out and whose `http://` record got a 404 has its domain listed under both the timeout heading and the 404 heading |
| Summary.AllOfClass | monitor.py:251-258 | when every record has one class, that class's count is the number of records |
| Summary.OneDomainGroup | monitor.py:248-261 | when every record is non-UP, in one group and of one domain, that group holds exactly that domain |
| Summary.SharedDomainCountedOnce | monitor.py:251-284 | with the default settings, two timed-out records of one host make a FAIL_TMP count of 2 but a timeout group of one domain |
| Summary.ADotTestPlain | monitor.py:43-52 | `a.test` has no `/`, `?`, `#`, tab, CR or LF, and lower-casing keeps it, so the two lemmas above apply to it |

## Left out

- Browser automation in `check_one` (monitor.py:147-161, 184-188) is not modelled: page creation, resource blocking, `goto`, reading the content and closing the page. These are calls into Playwright. The attempt's result is an input. `context.new_page()` (monitor.py:148) runs before the `try`, so an exception there is not turned into an `ERROR:` reason. It escapes the worker, makes `gather` (monitor.py:207) raise, and aborts `run_checks` before the update loop, so nothing is saved. One result per domain in `Health.RunChecks` assumes page creation succeeds.
- The asyncio semaphore, task creation and batching in `run_checks` (monitor.py:195-210) are not modelled. Their point is concurrency. Results are taken in domain order, which is the order `gather` returns them in. The model assumes `BATCH_SIZE` and `CONCURRENCY` are both positive. Otherwise the code behaves differently: a negative `BATCH_SIZE` makes `range(0, len(domains), BATCH_SIZE)` (monitor.py:204) empty, so nothing is probed and the state stays as it was; a `BATCH_SIZE` of 0 raises `ValueError`; `asyncio.Semaphore(0)` (monitor.py:198) makes every worker wait forever; and a negative `CONCURRENCY` makes `asyncio.Semaphore` raise `ValueError`, which aborts the run.
- File I/O is not modelled: the existence check and `utf-8-sig` read of the domain list, `load_state`, `save_state` and JSON (monitor.py:56-61, 79-90). `ReadDomains` takes the file's lines, so the missing-file `FileNotFoundError` and BOM removal are outside the model. So is the fallback to an empty state on a corrupt state file, and so are records loaded with missing or non-integer fields.
- `send_telegram` (monitor.py:92-102) is not modelled, since it is a network client.
- Environment-variable reads (monitor.py:6-25) are not modelled. Those values are the `Config` fields. `MODE`, `CONCURRENCY`, `BATCH_SIZE` and `FORCE_SEND` are not modelled.
- `now_utc` (monitor.py:36-37) is not modelled, since it reads the wall clock. Each run takes one timestamp. The code calls `now_utc()` anew for every record the update loop writes (monitor.py:223-224, 233) and once for the summary title. So within one run, records written later can carry later times than earlier ones, and one successful record's `last_ok` and `last_checked` can differ.
- `main` (monitor.py:295-322) is not modelled: the mode dispatch, the `[CHECK]`/`[REPORT]` prints and the state reset. `Summary.EmptyStateReport` covers the report of a freshly reset state.
- The parts of `urlsplit` that `normalize_url` does not depend on are not modelled. The model covers leading C0/space stripping, tab/CR/LF removal, the scheme rule and the netloc up to `/`, `?` or `#`. These follow `urllib.parse` of current CPython releases (3.12 and later, and the security fixes backported to earlier lines). On an older interpreter without those fixes, `urlsplit` neither strips leading C0 characters nor deletes tab/CR/LF, so a tab inside a line would stay in the netloc, and `Targets.NormalizeUrlCases` would not describe the program there. It leaves out the `ValueError` paths for bad `[...]` IPv6 hosts and NFKC-unsafe netlocs. Since `normalize_url` does not catch those errors, the model does not capture a crash of `read_domains` on such lines, nor the `url.lower()` fallback of `only_domain` (monitor.py:53-54).
- Text.Lower: lower-cases ASCII letters only. Python's `str.lower` also folds non-ASCII letters, so keyword matching and `only_domain` on non-ASCII pages or hosts are modelled only in the ASCII range.
- Summary.BuildSummary: takes the records in an arbitrary order rather than the dict's insertion order. Nothing in the report depends on that order, because the counts are sizes of sets and every group is sorted.
- Summary.DomainInOneGroup: the rule "every non-UP domain is listed under exactly one heading" does not hold for the code, so the lemma needs a hypothesis that no other record shares the domain. Groups hold domains, not URLs (monitor.py:248, 261), and `normalize_url` keeps the scheme, so the lines `a.test` and `http://a.test` give two records with one domain. When those records fall in different groups, the domain is printed under both headings (`Summary.SharedDomainTwoGroups`). When they fall in the same group, the heading's `len(doms)` counts the domain once while the header counts both records (`Summary.SharedDomainCountedOnce`).
- Health.ThresholdProgression: uses one result per run for the URL, via `Replay`. `Health.MergeAllDistinct` connects this to a real run, whose results have distinct URLs because the domain list is de-duplicated.
