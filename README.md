# Account clustering pipeline: a Dafny model

This project models the data-processing core of a small OSINT pipeline. The
pipeline takes the events of a SpiderFoot scan and turns them into a ranked
shortlist of accounts that probably belong to the scanned person.

- **Normalisation** (`project/src/normalize.py`, module `Normalize`). Each
  raw event becomes an evidence record. Events of type `username` add their
  data to a set of usernames. URLs wrapped in `<SFURL>...</SFURL>` markup are
  extracted (module `Sfurl`). Each URL occurrence becomes one account
  candidate. The candidate's platform and handle come from a host table and
  per-host path rules, or failing those from a generic path heuristic (module
  `Platforms`).
- **Target inference** (`project/src/normalize_run.py`, module
  `NormalizeRun`). The target is taken from the input's `target` field, else
  from the file name `spiderfoot_<target>_<digits>.json`, else from the
  events, else it is `unknown`.
- **Clustering** (`project/src/cluster.py`, module `Cluster`). Each account
  gets a platform guess and an extracted handle. Accounts are grouped by
  (platform, normalised handle or host). Groups keep the order in which their
  keys first appear. Each account is scored. A cluster's confidence is the
  maximum score of its members. Clusters are sorted by descending
  confidence, ties keeping their order.
- **Shortlist** (`project/src/shortlist_run.py`, module `ShortlistRun`). The
  clustered result is split into three tiers: likely (confidence 0.80 and
  up), maybe (0.50 up to 0.80) and low (below 0.50). Each tier is counted.

Supporting modules:

- `Url` models the part of `urllib.parse.urlparse` the core reads:
  scheme, netloc and path.
- `Strings` holds ASCII lower-casing, `strip`, `split` and sorting of string
  sets.
- `Seqs` and `Wrappers` hold a sequence map and the `Option` type.

Confidences and scores are integers in hundredths: 0.80 is `80`.

`normalize_events` and the loops of `cluster_accounts` update local state
step by step. They are modelled as methods with loop invariants.
`score_account` adds its terms to a running score one statement after
another. It is modelled as a straight-line method. Each method is proved
equal to a specification function, and the properties are proved about
that function. Everything else is functions and lemmas.

The score and the account list work as follows:

- the score starts at 0.25 and adds 0.15 per distinct module, with the
  module part capped at 0.45;
- a handle match adds 0.25, and 0.10 more on a high-signal platform;
- a URL that mentions the target adds 0.05;
- the score is then clamped to the range 0 to 1;
- only URLs wrapped in `<SFURL>` markup are extracted;
- every URL occurrence becomes its own account, even when the same URL
  occurs again.

Four quirks of the code are modelled as written, each with a lemma:

- `_host` uses `lstrip("www.")`, which strips any leading run of `w` and `.`
  characters. `web.archive.org` therefore becomes `eb.archive.org`
  (`Cluster.LstripDropsWOfWeb`).
- `platform_guess` uses `endswith` with no dot boundary, so `dropbox.com`
  is guessed as `twitter` because it ends in `x.com`
  (`Cluster.SuffixWithoutBoundary`).
- The `last.fm` username rule tests the host `www.last.fm` after a leading
  `www.` has already been removed. It fires only for `www.www.last.fm`
  (`Platforms.LastFmRuleNeverFires`).
- `extract_handle` for Reddit accepts only `/user/<name>` in any case, and
  not `/u/<name>`. The rule table of `parse_platform_and_username` accepts
  both (`Cluster.ExtractHandle`, `Platforms.RedditRule`).

## Model

| member | source | states |
|---|---|---|
| Strings.StripSpec | project/src/normalize.py:91 | `strip()` returns a string with no whitespace at either end, obtained from the input by cutting whitespace only from its two ends |
| Strings.JoinSplit | project/src/normalize.py:114 | splitting on a separator and joining the parts back with it gives the original string |
| Strings.SortedSet | project/src/normalize.py:281-282 | `sorted(set)` is strictly increasing, holds exactly the set's elements and has the set's size |
| Url.ParseCompose | project/src/normalize.py:107 | for `scheme://host path rest`, where the path starts with `/` and stops at `?` or `#`, the parse gives back the lowered scheme, the host and the path unchanged |
| Sfurl.ExtractSfurls | project/src/normalize.py:9 | every extracted URL is non-empty and has no surrounding whitespace |
| Sfurl.ExtractFromPlainText | project/src/normalize.py:90-91 | text without a `<` yields no URLs |
| Sfurl.ExtractOne | project/src/normalize.py:9 | one `<SFURL>` element, with tags in any case and whitespace around the URL, yields that URL first; extraction then continues after its closing tag |
| Sfurl.ExtractUpper | project/src/normalize.py:9 | the upper-case tags SpiderFoot writes are matched like lower-case ones |
| Sfurl.ExtractMarkup | project/src/normalize.py:9 | extracting from back-to-back `<SFURL>` elements returns exactly the wrapped URLs, in order (a round trip) |
| Sfurl.FindTagFirst | project/src/normalize.py:9 | the tag search returns the first position at or after the start where the tag occurs, ignoring case, and returns none only when there is no such position |
| Platforms.SubdomainsNotListed | project/src/normalize.py:35-81 | the host lookup is exact: `gist.github.com` and `m.twitch.tv` have no platform although `github.com` and `twitch.tv` do |
| Platforms.CleanSeg | project/src/normalize.py:94-95 | the cleaned path is a contiguous piece of the input that neither starts nor ends with `/` |
| Platforms.PlatformIgnoresCaseAndPort | project/src/normalize.py:99-103 | for `https://Host:port/path`, the platform is that of the lowered host, whatever the case and the port |
| Platforms.WithoutWww | project/src/normalize.py:112 | exactly one leading `www.` is removed, and nothing else |
| Platforms.HostRules | project/src/normalize.py:116-166 | the platform is the host table's entry. A handle is returned only for a host with a path rule, is one of the path segments, and is what that host's rule gives |
| Platforms.ParsePlatformAndUsername | project/src/normalize.py:105-166 | a platform is never empty or `unknown`. A username is one of the URL's non-empty path segments and holds no `/` |
| Platforms.RulesOfComposedUrl | project/src/normalize.py:105-116 | for `scheme://netloc path rest`, the rules see the netloc lowered with one `www.` removed, and the non-empty segments of the path with its whitespace and outer slashes cleaned off |
| Platforms.PortHidesRulePlatform | project/src/normalize.py:97-116 | the rule parser keeps a port in the host, so `https://github.com:443/alice` gets no platform and no username there, while the plain host lookup, which drops the port, gives `github` |
| Platforms.FirstSegmentHosts | project/src/normalize.py:119-126 | on the first-segment hosts (github, twitch, instagram, patreon, vimeo, pinterest, mixcloud, kik) the handle is the first segment when there is one |
| Platforms.RedditRule | project/src/normalize.py:127-128 | on reddit.com the handle is the second segment exactly when the first is `user` or `u` |
| Platforms.LastFmRuleNeverFires | project/src/normalize.py:135 | after the `www.` removal, a last.fm URL gets platform `lastfm` and never a username |
| Platforms.ZepetoRule | project/src/normalize.py:155-159 | on web.zepeto.me the handle is the fourth segment exactly when the path starts `share/user/profile` |
| Platforms.ArchiveHasNoHandle | project/src/normalize.py:161-163 | archive.org and web.archive.org give platform `archive` and no username |
| Platforms.GuessHandleFromUrl | project/src/normalize.py:169-216 | a guessed handle is non-empty and holds no `/` |
| Platforms.HandleFromSegments | project/src/normalize.py:185-216 | no segments give no handle. A handle is non-empty, holds no `/`, and is the target, one of the segments, or the first segment without its `@` |
| Platforms.GuessHandleShape | project/src/normalize.py:190-216 | a guessed handle is either the `@`-stripped first segment, or it is not a directory word and is the target, a segment without a `.`, or the segment after a directory word |
| Platforms.GuessAtHandle | project/src/normalize.py:190-192 | a first segment `@name` gives `name`, whatever follows |
| Platforms.GuessAfterDirectory | project/src/normalize.py:194-200 | `/<directory word>/<name>` gives `name` when `name` is no directory word |
| Platforms.GuessTargetLast | project/src/normalize.py:202-209 | a last segment equal to the target ignoring case gives the target in its own spelling |
| Platforms.GuessJunkLast | project/src/normalize.py:202-205 | when no earlier rule fires, a last segment that is a directory word gives no handle |
| Platforms.GuessFileLast | project/src/normalize.py:203-216 | when no earlier rule fires and the last segment is not the target, a segment holding a `.` gives no handle and any other is the handle |
| Platforms.GuessEmptyPath | project/src/normalize.py:182-183 | a path holding nothing but slashes gives no handle |
| Normalize.SafeStr | project/src/normalize.py:86-87 | a missing value reads as `""`, and a present string is kept as it is |
| Normalize.Timestamp | project/src/normalize.py:230 | a nonzero `generated` wins, else `ts` is used, and the result is 0 exactly when neither is present and nonzero |
| Normalize.ChosenHandle | project/src/normalize.py:254-260 | the rule-based username wins when there is one, and the heuristic guess is used otherwise |
| Normalize.MakeAccount | project/src/normalize.py:253-279 | the account keeps the URL and the event's three signal fields, with kind `url`. Its platform is the rule table's, else the plain host lookup's, and never `unknown`. Its username is the chosen handle when that differs from the target ignoring case, else the target when there is one, else the chosen handle |
| Normalize.EvidenceList | project/src/normalize.py:233-241 | one evidence record per event, in event order |
| Normalize.NormalizeEvents | project/src/normalize.py:219-298 | the output holds the target, the evidence, the sorted usernames, the sorted URLs and the accounts of the specification functions, with counts that are their lengths |
| Normalize.ReadEvents | project/src/normalize.py:225-279 | the event loop accumulates exactly the evidence list, username set, URL set and account list that the specification functions give |
| Normalize.ReadEvent | project/src/normalize.py:226-279 | one iteration extends each accumulator by that event's contribution |
| Normalize.AddUrls | project/src/normalize.py:249-279 | the inner loop adds the event's URLs to the set and appends one account per URL, in order |
| Normalize.EventStep | project/src/normalize.py:225-279 | each specification function on a prefix one event longer is its value on the shorter prefix plus that event's contribution |
| Normalize.UsernamesSpec | project/src/normalize.py:243-246 | a name is a username exactly when some event of type `username` (any case) carries it as data |
| Normalize.UrlsSpec | project/src/normalize.py:248-251 | a URL is collected exactly when some event's data wraps it in `<SFURL>` markup |
| Normalize.AccountsForSpec | project/src/normalize.py:250-279 | an event yields one account per extracted URL, the j-th built from the j-th URL |
| Normalize.AccountCount | project/src/normalize.py:291 | the account count equals the total number of URL occurrences, with no merging |
| Normalize.AccountsShape | project/src/normalize.py:264-279 | every account has kind `url`, exactly one signal, and a URL among the collected URLs |
| NormalizeRun.InferTargetFromFilename | project/src/normalize_run.py:21-27 | an inferred target is non-empty and has no line break |
| NormalizeRun.FilenameSpec | project/src/normalize_run.py:21-27 | the inferred target is `t` exactly when the base name is `spiderfoot_` + `t` + `_`digits`.json` (optionally with one final newline) and `t` is non-empty without a line break. At most one `t` fits a name |
| NormalizeRun.FilenameRoundTrip | project/src/normalize_run.py:21-27 | naming a file `dir/spiderfoot_<t>_<digits>.json` and inferring from it gives back `t` |
| NormalizeRun.TrailingNewlineAccepted | project/src/normalize_run.py:24 | `$` also matches before a final newline, so such a name still gives `t` |
| NormalizeRun.BasenameOf | project/src/normalize_run.py:23 | the base name of `dir/name` is `name` |
| NormalizeRun.InferTargetFromEvents | project/src/normalize_run.py:30-45 | an inferred target is non-empty and stripped |
| NormalizeRun.UsernameWins | project/src/normalize_run.py:32-36 | the first `username` event with non-blank data decides the target, wherever it stands in the list |
| NormalizeRun.EventsGiveNothing | project/src/normalize_run.py:30-45 | nothing is inferred exactly when no event names the target and the first event has neither a non-blank source nor non-blank data |
| NormalizeRun.FirstTruthy | project/src/normalize_run.py:85 | the first present, non-empty candidate is taken, and `unknown` only when there is none |
| NormalizeRun.ChooseTarget | project/src/normalize_run.py:85 | the target is never empty. The input's non-empty target wins, then the file name's, then the events', and `unknown` is used when none gives one |
| NormalizeRun.FilenameBeatsEvents | project/src/normalize_run.py:85 | when the input names no target, a target in the file name wins over the events |
| NormalizeRun.UsernameEventDecides | project/src/normalize_run.py:85 | with no target in the input and none in the file name, the first `username` event decides |
| Cluster.Host | project/src/cluster.py:19-20 | the host is a suffix of the lowered netloc. Only `w` and `.` characters were dropped before it, and it does not start with either |
| Cluster.LstripDropsWww | project/src/cluster.py:20 | `www.` followed by a name not starting with `w` or `.` loses exactly `www.` |
| Cluster.LstripDropsWOfWeb | project/src/cluster.py:20 | `web.` loses its `w` and becomes `eb.` |
| Cluster.PathParts | project/src/cluster.py:22-23 | the path parts are non-empty and hold no `/` |
| Cluster.FirstSuffix | project/src/cluster.py:29-44 | the suffix search returns the first table entry the host ends with, and returns none only when it ends with no entry |
| Cluster.GuessFromHost | project/src/cluster.py:26-45 | a non-empty platform field wins. Otherwise the platform of the first matching suffix is used, or `unknown` when no suffix matches |
| Cluster.PlatformGuess | project/src/cluster.py:25-45 | the guess is never empty, and a non-empty platform field is returned as is |
| Cluster.SuffixWithoutBoundary | project/src/cluster.py:39 | `dropbox.com` is guessed as `twitter` |
| Cluster.XComIsTwitter | project/src/cluster.py:39 | any host ending in `x.com` and in none of the earlier suffixes is guessed as `twitter` |
| Cluster.ExtractHandle | project/src/cluster.py:47-68 | no handle for an empty path. On Reddit the handle is the second part exactly when the first is `user` in any case. Everywhere else it is the first part |
| Cluster.KeepHandleChars | project/src/cluster.py:71 | the kept characters are handle characters `[a-z0-9._-]` of the input, and every handle character of the input is kept |
| Cluster.KeepOne | project/src/cluster.py:71 | one character is kept when it is in `[a-z0-9._-]` and deleted otherwise |
| Cluster.KeepAppend | project/src/cluster.py:71 | the filter of a concatenation is the concatenation of the filters, so the kept characters keep their order and repeats |
| Cluster.NormalizedAppend | project/src/cluster.py:70-71 | normalising a concatenation normalises each part, and one character is lower-cased and then kept or deleted, so the function is lower-casing followed by deleting every other character |
| Cluster.NormalizedHandle | project/src/cluster.py:70-71 | the normalised handle holds only `[a-z0-9._-]` and is no longer than the input |
| Cluster.NormalizedFixedPoint | project/src/cluster.py:70-71 | a string made only of handle characters is its own normalisation |
| Cluster.NormalizedIdempotent | project/src/cluster.py:70-71 | normalising twice is the same as normalising once |
| Cluster.ScoreAccount | project/src/cluster.py:73-110 | the method computes the specified score, which lies between 25 and 100 |
| Cluster.Score | project/src/cluster.py:73-110 | every score lies between 0.25 and 1.00. A handle match gives at least 0.50, 0.60 on a high-signal platform. Without a handle match the score is at most 0.75, so such an account is never likely |
| Cluster.ScoreGrowsWithSignals | project/src/cluster.py:85-109 | one more signal never lowers an account's score |
| Cluster.ModulesGrow | project/src/cluster.py:86-88 | appending a signal keeps every module and adds its own module when it has one |
| Cluster.ScoreMonotoneInModules | project/src/cluster.py:85-109 | more supporting modules never lower the score |
| Cluster.ScoreSaturates | project/src/cluster.py:91 | modules beyond the third add nothing |
| Cluster.ScoreClamped | project/src/cluster.py:91-107 | the largest raw score, 1.10, is clamped to 1.00 |
| Cluster.EntryFields | project/src/cluster.py:120-129 | the annotated account keeps every field and gets the guessed platform and extracted handle. Its key is (platform, normalised handle), or (platform, host) when there is no handle |
| Cluster.FirstKeysDistinct | project/src/cluster.py:131-140 | each key appears once among the cluster keys |
| Cluster.FirstKeysSpec | project/src/cluster.py:131-140 | a key is a cluster key exactly when some account has it |
| Cluster.GroupNonEmpty | project/src/cluster.py:131-140 | a key's group is non-empty exactly when the key is a cluster key |
| Cluster.GroupSound | project/src/cluster.py:139 | every member of a group is an account with that key |
| Cluster.MemberInGroup | project/src/cluster.py:139 | every account is in its own key's group |
| Cluster.GroupsCoverAll | project/src/cluster.py:119-140 | the group sizes add up to the number of accounts |
| Cluster.MaxOrZeroSpec | project/src/cluster.py:146 | the maximum of a non-empty list is in the list and bounds every element |
| Cluster.BuiltAt | project/src/cluster.py:143-151 | the j-th unsorted cluster is the finished bucket of the j-th key in first-appearance order |
| Cluster.ClusterKeysDistinct | project/src/cluster.py:117-140 | no two clusters share a key |
| Cluster.ClusterMembersBelong | project/src/cluster.py:139 | every cluster member is an input account that has the cluster's key |
| Cluster.AccountPlaced | project/src/cluster.py:119-140 | every input account is a member of the cluster of its key |
| Cluster.ClustersCoverAll | project/src/cluster.py:119-151 | the cluster sizes add up to the number of accounts |
| Cluster.FinishConfidence | project/src/cluster.py:145-146 | a bucket's confidence bounds every member score, is reached by some member, and lies in 25..100 |
| Cluster.ClusterConfidence | project/src/cluster.py:144-146 | every built cluster is non-empty, and its confidence is its best member's score |
| Cluster.ClusterFields | project/src/cluster.py:133-138 | a cluster carries its first member's platform and handle. Its signals and URLs are strictly sorted and are exactly its members' modules and URLs |
| Cluster.SortByConfidence | project/src/cluster.py:154 | sorting gives descending confidence and is a permutation of the input |
| Cluster.SortStable | project/src/cluster.py:154 | clusters with equal confidence keep their relative order |
| Cluster.InsertPermutes | project/src/cluster.py:154 | one insertion step adds exactly the inserted cluster |
| Cluster.InsertDescending | project/src/cluster.py:154 | inserting into a descending list keeps it descending |
| Cluster.FileAccounts | project/src/cluster.py:119-140 | the filing loop produces the keys in first-appearance order and a map holding, for each key, exactly its specified bucket |
| Cluster.FileAccount | project/src/cluster.py:120-140 | filing one more account keeps that correspondence for the longer prefix |
| Cluster.MemberScores | project/src/cluster.py:145 | the list of member scores, in member order |
| Cluster.FinishBucket | project/src/cluster.py:144-151 | a finished cluster equals its specification |
| Cluster.FinishAll | project/src/cluster.py:143-151 | the finishing loop produces exactly the specified clusters, in bucket order |
| Cluster.ClusterAccounts | project/src/cluster.py:112-155 | the result is the specified clusters sorted by descending confidence |
| ShortlistRun.TiersPartition | project/src/shortlist_run.py:17-19 | each confidence meets exactly one of the three tier conditions |
| ShortlistRun.MissingConfidenceIsLow | project/src/shortlist_run.py:17-19 | a record without a confidence counts as 0 and is low |
| ShortlistRun.SelectSpec | project/src/shortlist_run.py:17-19 | a tier holds exactly the input records that meet its condition |
| ShortlistRun.SelectKeepsOrder | project/src/shortlist_run.py:17-19 | each tier is a subsequence of the input, so records keep their order |
| ShortlistRun.TiersCoverAll | project/src/shortlist_run.py:16-28 | the three tiers together are a redistribution of the input, and their sizes add up to its size |
| ShortlistRun.SortedTiers | project/src/shortlist_run.py:17-19 | on a list sorted by descending confidence, the tiers are its consecutive slices |
| ShortlistRun.MakeShortlist | project/src/shortlist_run.py:16-33 | the output keeps the target and input file name. The counts are the tier sizes and add up to the cluster count. A missing `clusters` key gives empty tiers and zero counts |
| ShortlistRun.ShortlistPlaces | project/src/shortlist_run.py:16-33 | every input record is in exactly the tier of its confidence |
| ShortlistRun.ClusteredTiers | project/src/shortlist_run.py:16-19 | on the output of `cluster_accounts`, the tiers are consecutive slices: likely, then maybe, then low |

## Left out

- File and console I/O are not part of this model. This covers
  `_latest_file`, `_load_raw`, `latest_clustered_json`, JSON reading and
  writing, `print` and `SystemExit`. The scripts' bodies are modelled from
  the point where the events or the clustered data are in hand.
  `cluster_run.py` and `run_spiderfoot.py` are not part of this model.
- The modification times that choose the latest input file are left out.
  The file's path is a parameter.
- `urlparse` is modelled only as far as the core reads it: scheme, netloc
  and path. Params, the stripping of control characters and the exceptions
  that the `try` blocks catch are left out.
- Strings are ASCII. Python's Unicode `lower()`, `strip()` and the `\d` and
  `\s` regex classes are modelled on their ASCII ranges.
- Scores use exact hundredths instead of floating point. The float rounding
  of `0.15 * 3` just below 0.45, and of sums near the 0.50 and 0.80 tier
  limits, is not modelled.
- JSON values of non-string types are left out. So are `str()` of a number,
  and a `generated` or `ts` value that is not an integer. In `normalize.py`
  and `cluster.py` a missing key and a `null` value are both `None`.
- A `null` `clusters` or `confidence` makes `shortlist_run.py` raise a
  `TypeError`. The model treats it as a missing key
  (`ShortlistRun.MissingConfidenceIsLow`, `ShortlistRun.MakeShortlist`).
- `SPECIAL_PATH_PREFIXES` in `cluster.py` is never read by the code, so it
  is not modelled.
- `list.sort(reverse=True)` is modelled as a stable insertion sort into
  descending order.
- Cluster.ClusterAccounts: the in-place update of each cluster record is
  modelled as building new values. Buckets live in a `map` keyed by
  (platform, id), next to a list of keys in first-appearance order, which
  stands for the insertion order of the Python `dict`.
- The bodies of the source's loops are written as methods of their own:
  `Normalize.ReadEvent`, `Normalize.AddUrls`, `Cluster.FileAccount`,
  `Cluster.MemberScores` and `Cluster.FinishBucket`. They do not
  correspond to functions of the source.
- The directory-word set is a parameter of `Platforms.HandleFromSegments`.
  `GuessHandleFromUrl` passes it `JUNK_PATH_SEGMENTS`.
- Platforms.GuessHandleShape: states the shape of a guessed handle, not
  which rule fired. `GuessAtHandle`, `GuessAfterDirectory`,
  `GuessTargetLast`, `GuessJunkLast`, `GuessFileLast` and `GuessEmptyPath`
  state the single rules.
