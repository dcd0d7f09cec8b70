# link_crawler, modelled in Dafny

This project models the crawl loop `link_crawler` of `link_crawler.py`. Starting from a seed URL, the loop:

- keeps a stack of URLs still to crawl (`crawl_queue`);
- keeps a registry `seen` from every discovered URL to the depth at which it was first found;
- keeps a download counter `num_urls`.

Each iteration:

1. pops the top URL;
2. asks the robots.txt policy whether the user agent may fetch it;
3. if it may, downloads the page;
4. gathers candidate links: the scrape callback's links always, and the extracted links that match `link_regex` only when the page is not at `max_depth` and a pattern is set;
5. records every unseen link at the page's depth plus one;
6. pushes a recorded link only when its network location equals the seed's;
7. counts the download, and stops when the count equals `max_urls`.

A URL the policy refuses is reported as blocked, and nothing else changes.

There are two files.

`links.dfy` (module `Links`) holds the collaborators. The loop only calls them, so each is a function fixed for one run:

- the robots policy;
- the downloader;
- the optional scrape callback;
- the link extractor `get_links`;
- the regular-expression test;
- `urlparse(..).netloc`;
- `normalize`.

All of them are grouped in `Env`. `same_domain` becomes `SameDomain`, equality of network locations.

`crawler.dfy` (module `Crawler`) holds the loop. It has two layers.

- **Specification functions.**
  - `Candidates`: the links gathered from one page.
  - `AdmitLinks`: the inner `for link in links` loop.
  - `Step`: one iteration of `while crawl_queue`.
  - `Run` and `Crawl`: the whole loop.
  - The invariant `Inv` is proved to hold before the loop and after every iteration.
- **The loop itself.** The method `LinkCrawler` is written imperatively, with the same locals, branches and `break` as the source. It is proved to compute `Crawl`. Its helper methods `GatherLinks` and `RecordLinks` are proved against `Candidates` and `AdmitLinks`.

The state is a `Session`. Besides `crawl_queue`, `seen` and `num_urls`, it carries two logs: the URLs handed to the downloader, and the URLs reported as blocked, each in order. These make the loop's observable effects part of the result.

Termination relies on a ghost finite set `universe` that contains the seed and every link that a page of the universe in the seed's domain can contribute, at any depth (`Closed`). The loop decreases the number of URLs of the universe not yet in `seen`, then the stack height.

The specification functions take a `LinkKeys` argument that says what is recorded for a link:

- `RawLinks`: the raw link, as the code does;
- `NormalizedLinks`: `normalize(seed_url, link)`, the value the code computes and discards (see "## Findings").

Every invariant and crawl-level lemma is proved for both.

Three behaviours of the code are easy to misread, and the model follows the code in each:

- **What `seen` is keyed by.** `normalize` is documented as removing the fragment and adding the domain, "to avoid duplicates" (lines 71, 73). Line 35 calls it against the seed, but drops the result, so `seen` and the stack hold the raw link.
- **The `max_urls` test.** The default `max_urls=-1` (line 6) means "no limit". The stop test is equality (line 46) reached by counting up from 1, so every `max_urls` below 1, 0 included, means no limit.
- **Callback links and depth.** `max_depth` gates only the extracted links (lines 28-32). The callback's links are gathered at every depth (lines 25-26), so pages at `max_depth` still record, and may push, new links.

## Model

| member | source | states |
|---|---|---|
| Links.SameDomain | link_crawler.py:76-79 | two URLs are in the same domain iff their network locations are equal; every URL is in its own domain |
| Links.SameDomainIsEquivalence | link_crawler.py:76-79 | the domain relation is reflexive, symmetric and transitive |
| Links.CallbackLinks | link_crawler.py:25-26 | without a scrape callback no links come from it; with one, exactly the links it returns, and none when it returns nothing (`or []`) |
| Links.MatchingLinks | link_crawler.py:32 | keeps exactly the links the pattern matches, and never more links than it was given |
| Links.MatchingLinksAppend | link_crawler.py:32 | the filter works link by link: filtering a concatenation is the concatenation of the filtered parts, so order and repeats are kept |
| Links.MatchingLinksSingle | link_crawler.py:32 | a single link is kept exactly when the pattern matches it |
| Crawler.Candidates | link_crawler.py:24-32 | the callback's links come first; every link after them is an extracted link matching the pattern; below `max_depth` with a pattern set, the links after the callback's are exactly the filtered extracted links, in their order; at `max_depth` or without a pattern, only the callback's links are gathered |
| Crawler.Init | link_crawler.py:10-14 | the state before the loop: stack `[seed]`, `seen = {seed: 0}`, no downloads; InitEstablishesInv states that it satisfies the invariant |
| Crawler.AdmitLink | link_crawler.py:36-42 | a seen link changes nothing; an unseen one is recorded at depth+1 and pushed iff it is in the seed's domain; the counter and the logs are untouched |
| Crawler.AdmitLinks | link_crawler.py:34-42 | afterwards `seen`'s keys are the old keys plus the links; old entries keep their depth; new entries have depth+1 |
| Crawler.AdmitLinksKeepsStack | link_crawler.py:34-42 | the inner loop only pushes: the old stack stays underneath what it adds |
| Crawler.PushedAreNewSameDomain | link_crawler.py:37-42 | every pushed URL is one of the links, was unseen, is in the seed's domain and is now recorded; none is pushed twice |
| Crawler.PushedComplete | link_crawler.py:37-42 | every unseen link in the seed's domain is pushed |
| Crawler.Step | link_crawler.py:19-49 | one iteration of the loop, recording the page's links under the keys `RegistryKeys` selects (raw links as written); StepCounts, StepSeen, StepLifo and StepStack state what it does |
| Crawler.StepCounts | link_crawler.py:19-49 | an iteration stops iff the URL is allowed and the count reaches exactly `max_urls`; an allowed URL is downloaded and counted once; a blocked URL is popped and reported, and `seen`, the rest of the stack and the counter are unchanged |
| Crawler.StepSeen | link_crawler.py:20-38 | the links of a downloaded page all end up in `seen`; old entries keep their depth; every new entry comes from that page and has its depth plus one |
| Crawler.StepLifo | link_crawler.py:19-42 | an iteration removes the top of the stack, leaves the rest untouched, and pushes only URLs it has just recorded |
| Crawler.StepStack | link_crawler.py:19-42 | the stack after an iteration is the old stack minus its top, plus the pushed links when the URL was allowed |
| Crawler.InitEstablishesInv | link_crawler.py:10-14 | the initial stack `[seed]`, `seen = {seed: 0}` and zero count satisfy the invariant |
| Crawler.StepKeepsDepths | link_crawler.py:12-38 | the seed stays at depth 0 and every other key at depth 1 or more; without a callback no key exceeds a non-negative `max_depth` |
| Crawler.StepKeepsRecorded | link_crawler.py:10-42 | every URL on the stack, downloaded or blocked remains a key of `seen` |
| Crawler.StepKeepsOnce | link_crawler.py:19-42 | no URL is on the stack twice, downloaded twice or blocked twice, and a popped URL never returns to the stack |
| Crawler.StepKeepsConfined | link_crawler.py:40-42 | only URLs of the seed's domain are ever on the stack, downloaded or checked against robots.txt |
| Crawler.StepKeepsPolite | link_crawler.py:22-49 | downloads happen only where robots.txt allows them, blocked URLs are exactly refused ones, and `num_urls` equals the number of downloads |
| Crawler.StepPreservesInv | link_crawler.py:18-49 | every iteration preserves the whole invariant |
| Crawler.StepProgress | link_crawler.py:18-42 | every iteration records a new URL of the universe or shrinks the stack, so the loop terminates |
| Crawler.Run | link_crawler.py:18-49 | the loop from a given state until the stack is empty or `break`; StepProgress gives its termination, and RunKeepsInv, RunStops, RunKeepsSeen and RunExtendsLogs state its outcome |
| Crawler.RunKeepsInv | link_crawler.py:18-49 | the invariant holds when the loop ends |
| Crawler.RunStops | link_crawler.py:18-47 | the loop ends on an empty stack or at exactly `max_urls` downloads, and never exceeds a positive `max_urls` |
| Crawler.RunKeepsSeen | link_crawler.py:37-38 | over the whole loop `seen` only grows and no depth is overwritten |
| Crawler.RunExtendsLogs | link_crawler.py:22-49 | over the whole loop the download and blocked logs only grow |
| Crawler.Crawl | link_crawler.py:6-49 | the whole crawl, `Run` from `Init`; the Crawl lemmas below state its outcome and LinkCrawler is proved to compute it |
| Crawler.GatherLinks | link_crawler.py:24-32 | gathers exactly `Candidates` |
| Crawler.RecordLinks | link_crawler.py:34-42 | the inner loop, with `normalize`'s result dropped, computes exactly `AdmitLinks` on raw links |
| Crawler.LinkCrawler | link_crawler.py:6-49 | the loop as written computes exactly the crawl `Crawl` keyed by raw links |
| Crawler.CrawlProcessesEachUrlOnce | link_crawler.py:19-42 | over a whole crawl each URL is downloaded at most once, blocked at most once, never both |
| Crawler.CrawlStaysInSeedDomain | link_crawler.py:40-42 | every URL downloaded or blocked has the seed's network location and is a key of `seen` |
| Crawler.CrawlCountsDownloads | link_crawler.py:12-47 | the seed ends at depth 0 and the rest at depth 1 or more; downloads are allowed URLs only, blocked ones refused; `num_urls` is the number of downloads, at most a positive `max_urls`, and equal to it when the loop broke early |
| Crawler.CrawlUnboundedBelowOne | link_crawler.py:46 | with `max_urls` below 1 the loop runs until the stack is empty |
| Crawler.CrawlDepthCutoff | link_crawler.py:28-38 | without a callback and with `max_depth >= 0`, no downloaded URL is deeper than `max_depth` |
| Crawler.CrawlSeedBlocked | link_crawler.py:18-49 | when robots.txt refuses the seed, nothing is downloaded; the seed is reported blocked and the loop ends |
| Crawler.CrawlDepthZero | link_crawler.py:24-32 | with `max_depth` 0 and no callback, only the seed is handled and `seen` stays `{seed: 0}` |
| Crawler.RawKeysSplitFragmentVariants | link_crawler.py:35-38 | as written, two links with the same normalized address (e.g. differing only by a fragment) become two entries of `seen` |
| Crawler.RawKeysDropRelativeLinks | link_crawler.py:35-42 | as written, a link whose raw network location differs from the seed's is never pushed, even when it resolves into the seed's site |
| Crawler.NormalizedKeysMergeFragmentVariants | link_crawler.py:35-38 | keyed by the normalized address, such links add exactly one entry |
| Crawler.NormalizedKeysFollowRelativeLinks | link_crawler.py:35-42 | keyed by the normalized address, a relative link into the seed's site is recorded at depth+1 and pushed as its absolute address |

## Left out

- The `Downloader` is not part of this model (link_crawler.py:3, 16, 23). The page body is a fixed function of the URL. Delay, proxies, retries and caching live inside it, and what the loop does with a failed download is not modelled.
- `get_robots` (link_crawler.py:54-60) fetches and parses robots.txt over the network. Its policy `rp.can_fetch` is a predicate fixed for the whole run.
- `get_links` (link_crawler.py:62-68) is an opaque extractor. Its UTF-8 decode and anchor regular expression are not modelled, and neither is the `re.match` test of `link_regex`, which is an opaque predicate.
- `urldefrag`, `urljoin` and `urlparse` (link_crawler.py:73-74, 79) are Python library URL parsing. `normalize` and `netloc` are opaque functions, so idempotence of normalization is not stated.
- The `print` of a blocked URL (link_crawler.py:49) is represented by appending that URL to the `blocked` log. The `__main__` demo runs (link_crawler.py:81-83) are driver code and are not modelled.
- Crawler.LinkCrawler: it, `Crawl`, `Run` and every `Crawl...` lemma cover only runs on a finite universe closed under the links of its same-domain pages, at every depth (`Closed`). Excluded are sites whose same-domain link closure is infinite, such as a chain S, S/1, S/2 and so on. The source still stops on such a site when `max_urls >= 1` (lines 45-47), or when there is no callback and `max_depth >= 0` (lines 28-32); the model says nothing about those runs. Off-domain pages need not be closed, since they are never downloaded.
- Crawler.CrawlDepthCutoff: the depth bound is proved only without a scrape callback. Callback links are recorded at any depth, so with a callback the source gives no such bound.
- Exceptions are not modelled: every collaborator returns. In the source, `normalize` at line 35 (through `urljoin`) and `same_domain` at line 40 (through `urlparse`) raise `ValueError` on a malformed link such as `http://[x/`, and nothing catches it, so one such link ends the whole crawl; `normalize` and `netloc` are total functions here. A scrape callback or extractor that raises is not modelled either.

## Findings

| source | as written | input that shows it | evidently intended | confidence | as-written member | corrected member |
|---|---|---|---|---|---|---|
| link_crawler.py:35 | `normalize(seed_url, link)` is computed and its result discarded, so `seen` is keyed by, and the stack holds, the raw link | seed `http://example.test/`, a page linking `/a` and `/a#frag`: both become entries of `seen`, and neither is pushed, since a relative link has an empty network location | record and push `normalize(seed_url, link)`, so fragment variants share one entry and relative links into the site are crawled | not executed | Crawler.RawKeysSplitFragmentVariants | Crawler.NormalizedKeysMergeFragmentVariants |
| link_crawler.py:35, 40 | the domain test is applied to the raw link, which for a relative link has an empty network location | seed `http://example.test/`, a page linking `/a`: `/a` is recorded but never pushed | the domain test applied to the normalized address, which has the seed's network location | not executed | Crawler.RawKeysDropRelativeLinks | Crawler.NormalizedKeysFollowRelativeLinks |
