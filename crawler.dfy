/** The crawl loop `link_crawler`: a stack of URLs still to crawl, a registry
    of every URL seen with the depth at which it was first discovered, and a
    download counter. `Candidates`, `AdmitLinks`, `Step` and `Run` specify the
    loop as functions; the method `LinkCrawler` is the loop itself and is
    proved to compute `Run` from the initial state. */
module Crawler {
  import opened Links

  /** The parameters of `link_crawler` that the loop itself reads. `delay`,
      `proxies`, `num_retries` and `cache` only configure the downloader and
      are folded into `Env.download`. */
  datatype Config = Config(
    seedUrl: Url,
    linkRegex: Option<string>,
    maxDepth: int,
    maxUrls: int,
    userAgent: string)

  /** What the loop records in `seen` and pushes for a discovered link. The
      code records the raw link (`RawLinks`); `NormalizedLinks` records
      `normalize(seed, link)`, the value the code computes and drops. */
  datatype LinkKeys = RawLinks | NormalizedLinks

  /** The traversal state and the loop's observable effects so far:
      `queue` is `crawl_queue` (its last element is the top of the stack),
      `seen` maps each discovered URL to its first-seen depth, `numUrls` is
      `num_urls`, `downloads` lists the URLs handed to the downloader in
      order, and `blocked` the URLs reported as refused by robots.txt. */
  datatype Session = Session(
    queue: seq<Url>,
    seen: map<Url, nat>,
    numUrls: nat,
    downloads: seq<Url>,
    blocked: seq<Url>)

  /** One iteration's new state, and whether it ends with `break`. */
  datatype StepResult = StepResult(next: Session, stop: bool)

  /** The state before the first iteration: the seed alone, at depth 0. */
  function Init(cfg: Config): (init: Session)
  {
    Session([cfg.seedUrl], map[cfg.seedUrl := 0], 0, [], [])
  }

  ghost predicate NoDup(xs: seq<Url>)
  {
    forall i, j :: 0 <= i < j < |xs| ==> xs[i] != xs[j]
  }

  /** Whether regex-extracted links are gathered on a page at this depth. */
  predicate FollowsExtracted(cfg: Config, depth: nat)
  {
    depth != cfg.maxDepth && HasPattern(cfg.linkRegex)
  }

  /** The candidate links of a downloaded page, in the order the loop
      gathers them: the callback's links first, then the extracted links the
      pattern matches, the latter only below `max_depth` and when a pattern
      is set. */
  function Candidates(cfg: Config, env: Env, url: Url, depth: nat): (links: seq<Url>)
    ensures CallbackLinks(env, url, env.download(url)) <= links
    ensures !FollowsExtracted(cfg, depth) ==> links == CallbackLinks(env, url, env.download(url))
    ensures forall l :: l in links[|CallbackLinks(env, url, env.download(url))|..] ==>
              cfg.linkRegex.Some? && l in env.extractLinks(env.download(url)) && env.reMatch(cfg.linkRegex.value, l)
    ensures FollowsExtracted(cfg, depth) ==>
              forall l :: l in env.extractLinks(env.download(url)) && env.reMatch(cfg.linkRegex.value, l) ==> l in links
    ensures FollowsExtracted(cfg, depth) ==>
              links[|CallbackLinks(env, url, env.download(url))|..] ==
              MatchingLinks(env, cfg.linkRegex.value, env.extractLinks(env.download(url)))
  {
    var page := env.download(url);
    var fromCallback := CallbackLinks(env, url, page);
    if FollowsExtracted(cfg, depth) then
      fromCallback + MatchingLinks(env, cfg.linkRegex.value, env.extractLinks(page))
    else
      fromCallback
  }

  /** The keys the loop records for a list of candidate links. */
  function RegistryKeys(cfg: Config, env: Env, keys: LinkKeys, links: seq<Url>): (recorded: seq<Url>)
  {
    if keys.RawLinks? then links
    else seq(|links|, i requires 0 <= i < |links| => env.normalize(cfg.seedUrl, links[i]))
  }

  /** The keys a downloaded page at `depth` contributes. */
  function PageKeys(cfg: Config, env: Env, keys: LinkKeys, url: Url, depth: nat): (recorded: seq<Url>)
  {
    RegistryKeys(cfg, env, keys, Candidates(cfg, env, url, depth))
  }

  /** One pass of the inner loop's body for `link`: an unseen link is
      recorded at `depth + 1` and pushed when it is in the seed's domain; a
      link already seen changes nothing. */
  function AdmitLink(cfg: Config, env: Env, s: Session, link: Url, depth: nat): (r: Session)
    ensures r.numUrls == s.numUrls && r.downloads == s.downloads && r.blocked == s.blocked
    ensures link in s.seen ==> r == s
    ensures link !in s.seen ==> r.seen == s.seen[link := depth + 1]
    ensures r.queue == if link !in s.seen && SameDomain(env, cfg.seedUrl, link) then s.queue + [link] else s.queue
  {
    if link in s.seen then s
    else if SameDomain(env, cfg.seedUrl, link) then
      s.(seen := s.seen[link := depth + 1], queue := s.queue + [link])
    else
      s.(seen := s.seen[link := depth + 1])
  }

  /** The inner `for link in links` loop. Its effect on `seen`: the links
      become keys, every new key has depth `depth + 1`, and entries already
      present keep their depth (first discovery wins). */
  function AdmitLinks(cfg: Config, env: Env, s: Session, links: seq<Url>, depth: nat): (r: Session)
    ensures r.numUrls == s.numUrls && r.downloads == s.downloads && r.blocked == s.blocked
    ensures r.seen.Keys == s.seen.Keys + (set l | l in links)
    ensures forall k :: k in s.seen ==> r.seen[k] == s.seen[k]
    ensures forall k :: k in r.seen && k !in s.seen ==> r.seen[k] == depth + 1
    decreases |links|
  {
    if links == [] then s
    else
      var rest := links[..|links| - 1];
      assert links == rest + [links[|links| - 1]];
      AdmitLink(cfg, env, AdmitLinks(cfg, env, s, rest, depth), links[|links| - 1], depth)
  }

  /** The inner loop over `links + [link]` is the loop over `links` followed
      by one pass for `link`. */
  lemma AdmitLinksSnoc(cfg: Config, env: Env, s: Session, links: seq<Url>, link: Url, depth: nat)
    ensures AdmitLinks(cfg, env, s, links + [link], depth) ==
            AdmitLink(cfg, env, AdmitLinks(cfg, env, s, links, depth), link, depth)
  {
    assert (links + [link])[..|links|] == links;
  }

  /** The links the inner loop pushes on top of the stack. */
  function Pushed(cfg: Config, env: Env, s: Session, links: seq<Url>, depth: nat): (pushed: seq<Url>)
  {
    var r := AdmitLinks(cfg, env, s, links, depth);
    if |s.queue| <= |r.queue| then r.queue[|s.queue|..] else []
  }

  /** The inner loop leaves the old stack underneath what it pushes. */
  lemma {:induction false} AdmitLinksKeepsStack(cfg: Config, env: Env, s: Session, links: seq<Url>, depth: nat)
    ensures AdmitLinks(cfg, env, s, links, depth).queue == s.queue + Pushed(cfg, env, s, links, depth)
    decreases |links|
  {
    if links != [] {
      var rest, link := links[..|links| - 1], links[|links| - 1];
      AdmitLinksKeepsStack(cfg, env, s, rest, depth);
    }
  }

  /** One more link pushes that link exactly when it is unseen so far and in
      the seed's domain. */
  lemma PushedSnoc(cfg: Config, env: Env, s: Session, links: seq<Url>, link: Url, depth: nat)
    ensures Pushed(cfg, env, s, links + [link], depth) ==
      if link !in AdmitLinks(cfg, env, s, links, depth).seen && SameDomain(env, cfg.seedUrl, link)
      then Pushed(cfg, env, s, links, depth) + [link]
      else Pushed(cfg, env, s, links, depth)
  {
    AdmitLinksSnoc(cfg, env, s, links, link, depth);
    AdmitLinksKeepsStack(cfg, env, s, links, depth);
    AdmitLinksKeepsStack(cfg, env, s, links + [link], depth);
  }

  /** What the inner loop pushes are unseen links of the seed's domain, each
      pushed once: a link outside the domain is recorded but never pushed. */
  lemma {:induction false} PushedAreNewSameDomain(cfg: Config, env: Env, s: Session, links: seq<Url>, depth: nat)
    ensures forall u :: u in Pushed(cfg, env, s, links, depth) ==>
              u in links && u !in s.seen && SameDomain(env, cfg.seedUrl, u)
    ensures forall u :: u in Pushed(cfg, env, s, links, depth) ==> u in AdmitLinks(cfg, env, s, links, depth).seen
    ensures NoDup(Pushed(cfg, env, s, links, depth))
    decreases |links|
  {
    if links != [] {
      var rest, link := links[..|links| - 1], links[|links| - 1];
      assert links == rest + [link];
      PushedAreNewSameDomain(cfg, env, s, rest, depth);
      PushedSnoc(cfg, env, s, rest, link, depth);
      AdmitLinksSnoc(cfg, env, s, rest, link, depth);
    }
  }

  /** Every unseen link of the seed's domain is pushed. */
  lemma {:induction false} PushedComplete(cfg: Config, env: Env, s: Session, links: seq<Url>, depth: nat)
    ensures forall l :: l in links && l !in s.seen && SameDomain(env, cfg.seedUrl, l) ==>
              l in Pushed(cfg, env, s, links, depth)
    decreases |links|
  {
    if links != [] {
      var rest, link := links[..|links| - 1], links[|links| - 1];
      assert links == rest + [link];
      PushedComplete(cfg, env, s, rest, depth);
      PushedSnoc(cfg, env, s, rest, link, depth);
    }
  }

  /** The top of the stack: what `crawl_queue.pop()` returns. */
  function Top(queue: seq<Url>): (top: Url)
    requires queue != []
  {
    queue[|queue| - 1]
  }

  /** One iteration of `while crawl_queue`: pop the top URL; if robots.txt
      allows it, download it, record and push its candidate links, count the
      download and stop when the count reaches `max_urls`; otherwise report it
      as blocked. `StepCounts`, `StepSeen`, `StepLifo` and `StepStack` state
      what an iteration does. */
  function Step(cfg: Config, env: Env, keys: LinkKeys, s: Session): (r: StepResult)
    requires s.queue != [] && Top(s.queue) in s.seen
  {
    var url := Top(s.queue);
    var popped := s.(queue := s.queue[..|s.queue| - 1]);
    var depth := s.seen[url];
    if env.canFetch(cfg.userAgent, url) then
      var admitted := AdmitLinks(cfg, env, popped, PageKeys(cfg, env, keys, url, depth), depth);
      var next := admitted.(numUrls := admitted.numUrls + 1, downloads := admitted.downloads + [url]);
      StepResult(next, next.numUrls == cfg.maxUrls)
    else
      StepResult(popped.(blocked := popped.blocked + [url]), false)
  }

  /** What one iteration does with the counter and the two logs: a
      permitted URL is downloaded and counted, and only a download that brings
      the count to exactly `max_urls` breaks the loop; a blocked URL is popped
      and reported, and nothing else changes. */
  lemma StepCounts(cfg: Config, env: Env, keys: LinkKeys, s: Session)
    requires s.queue != [] && Top(s.queue) in s.seen
    ensures var url, r := Top(s.queue), Step(cfg, env, keys, s);
      && (r.stop <==> env.canFetch(cfg.userAgent, url) && s.numUrls + 1 == cfg.maxUrls)
      && (env.canFetch(cfg.userAgent, url) ==>
            && r.next.downloads == s.downloads + [url]
            && r.next.blocked == s.blocked
            && r.next.numUrls == s.numUrls + 1)
      && (!env.canFetch(cfg.userAgent, url) ==>
            r.next == s.(queue := s.queue[..|s.queue| - 1], blocked := s.blocked + [url]))
  {
  }

  /** What one iteration does with `seen`: every key of a downloaded page is
      recorded, old entries keep their depth (first discovery wins), and new
      entries come from the page, one level deeper than it. */
  lemma StepSeen(cfg: Config, env: Env, keys: LinkKeys, s: Session)
    requires s.queue != [] && Top(s.queue) in s.seen
    ensures var url, r := Top(s.queue), Step(cfg, env, keys, s);
      && (env.canFetch(cfg.userAgent, url) ==>
            forall k :: k in PageKeys(cfg, env, keys, url, s.seen[url]) ==> k in r.next.seen)
      && (forall k :: k in s.seen ==> k in r.next.seen && r.next.seen[k] == s.seen[k])
      && (forall k :: k in r.next.seen && k !in s.seen ==>
            r.next.seen[k] == s.seen[url] + 1 && k in PageKeys(cfg, env, keys, url, s.seen[url]))
  {
  }

  /** LIFO: an iteration removes the top of the stack, leaves the rest
      untouched, and pushes only keys it has just recorded. */
  lemma StepLifo(cfg: Config, env: Env, keys: LinkKeys, s: Session)
    requires s.queue != [] && Top(s.queue) in s.seen
    ensures var r := Step(cfg, env, keys, s);
      && |s.queue| - 1 <= |r.next.queue| && r.next.queue[..|s.queue| - 1] == s.queue[..|s.queue| - 1]
      && (forall u :: u in r.next.queue[|s.queue| - 1..] ==> u !in s.seen && u in r.next.seen)
  {
    var url := Top(s.queue);
    if env.canFetch(cfg.userAgent, url) {
      var popped := s.(queue := s.queue[..|s.queue| - 1]);
      var depth := s.seen[url];
      var links := PageKeys(cfg, env, keys, url, depth);
      AdmitLinksKeepsStack(cfg, env, popped, links, depth);
      PushedAreNewSameDomain(cfg, env, popped, links, depth);
      assert Step(cfg, env, keys, s).next.queue[|s.queue| - 1..] == Pushed(cfg, env, popped, links, depth);
    }
  }

  /** Depths: the seed is recorded at depth 0 and every other key, having
      been found on a page, at depth 1 or more; without a callback, no key is
      recorded beyond `max_depth`. */
  ghost predicate DepthsInv(cfg: Config, env: Env, s: Session)
  {
    && cfg.seedUrl in s.seen && s.seen[cfg.seedUrl] == 0
    && (forall k :: k in s.seen && k != cfg.seedUrl ==> s.seen[k] >= 1)
    && (env.scrapeCallback.None? && 0 <= cfg.maxDepth ==> forall k :: k in s.seen ==> s.seen[k] <= cfg.maxDepth)
  }

  /** Everything on the stack, downloaded or reported blocked is a key of `seen`. */
  ghost predicate RecordedInv(s: Session)
  {
    && (forall u :: u in s.queue ==> u in s.seen)
    && (forall u :: u in s.downloads ==> u in s.seen)
    && (forall u :: u in s.blocked ==> u in s.seen)
  }

  /** A URL is on the stack, downloaded or blocked at most once, and never
      two of these: each URL is pushed once and popped once at most. */
  ghost predicate OnceInv(s: Session)
  {
    && NoDup(s.queue) && NoDup(s.downloads) && NoDup(s.blocked)
    && (forall u :: u in s.downloads ==> u !in s.blocked && u !in s.queue)
    && (forall u :: u in s.blocked ==> u !in s.queue)
  }

  /** Domain confinement: only URLs of the seed's domain are ever on the
      stack, so only they are ever downloaded or checked against robots.txt. */
  ghost predicate ConfinedInv(cfg: Config, env: Env, s: Session)
  {
    && (forall u :: u in s.queue ==> SameDomain(env, cfg.seedUrl, u))
    && (forall u :: u in s.downloads ==> SameDomain(env, cfg.seedUrl, u))
    && (forall u :: u in s.blocked ==> SameDomain(env, cfg.seedUrl, u))
  }

  /** Politeness and counting: a URL is downloaded only when robots.txt
      allows it, blocked only when it does not, and `num_urls` counts the
      downloads. */
  ghost predicate PoliteInv(cfg: Config, env: Env, s: Session)
  {
    && (forall u :: u in s.downloads ==> env.canFetch(cfg.userAgent, u))
    && (forall u :: u in s.blocked ==> !env.canFetch(cfg.userAgent, u))
    && s.numUrls == |s.downloads|
  }

  /** The invariant of the crawl state. */
  ghost predicate Inv(cfg: Config, env: Env, s: Session)
  {
    DepthsInv(cfg, env, s) && RecordedInv(s) && OnceInv(s) && ConfinedInv(cfg, env, s) && PoliteInv(cfg, env, s)
  }

  /** The invariant holds before the first iteration. */
  lemma InitEstablishesInv(cfg: Config, env: Env)
    ensures Inv(cfg, env, Init(cfg))
  {
  }

  lemma NoDupConcat(xs: seq<Url>, ys: seq<Url>)
    requires NoDup(xs) && NoDup(ys) && forall u :: u in xs ==> u !in ys
    ensures NoDup(xs + ys)
  {
    forall i, j | 0 <= i < j < |xs + ys| ensures (xs + ys)[i] != (xs + ys)[j] {
      if j >= |xs| && i < |xs| {
        assert (xs + ys)[i] in xs && (xs + ys)[j] in ys;
      }
    }
  }

  /** The stack after a step is the rest of the old stack with the pushed
      links on top. */
  lemma StepStack(cfg: Config, env: Env, keys: LinkKeys, s: Session)
    requires s.queue != [] && Top(s.queue) in s.seen
    ensures var rest := s.queue[..|s.queue| - 1];
      Step(cfg, env, keys, s).next.queue ==
        if env.canFetch(cfg.userAgent, Top(s.queue))
        then rest + Pushed(cfg, env, s.(queue := rest), PageKeys(cfg, env, keys, Top(s.queue), s.seen[Top(s.queue)]), s.seen[Top(s.queue)])
        else rest
  {
    var rest := s.queue[..|s.queue| - 1];
    if env.canFetch(cfg.userAgent, Top(s.queue)) {
      AdmitLinksKeepsStack(cfg, env, s.(queue := rest), PageKeys(cfg, env, keys, Top(s.queue), s.seen[Top(s.queue)]), s.seen[Top(s.queue)]);
    }
  }

  lemma StepKeepsDepths(cfg: Config, env: Env, keys: LinkKeys, s: Session)
    requires DepthsInv(cfg, env, s) && s.queue != [] && Top(s.queue) in s.seen
    ensures DepthsInv(cfg, env, Step(cfg, env, keys, s).next)
  {
    var url := Top(s.queue);
    if env.scrapeCallback.None? && 0 <= cfg.maxDepth && s.seen[url] == cfg.maxDepth {
      assert PageKeys(cfg, env, keys, url, s.seen[url]) == [];
    }
  }

  lemma StepKeepsRecorded(cfg: Config, env: Env, keys: LinkKeys, s: Session)
    requires RecordedInv(s) && s.queue != []
    ensures RecordedInv(Step(cfg, env, keys, s).next)
  {
    StepLifo(cfg, env, keys, s);
    var rest := s.queue[..|s.queue| - 1];
    assert s.queue == rest + [Top(s.queue)];
    StepStack(cfg, env, keys, s);
  }

  lemma StepKeepsOnce(cfg: Config, env: Env, keys: LinkKeys, s: Session)
    requires RecordedInv(s) && OnceInv(s) && s.queue != []
    ensures OnceInv(Step(cfg, env, keys, s).next)
  {
    var url := Top(s.queue);
    var rest := s.queue[..|s.queue| - 1];
    assert s.queue == rest + [url];
    assert url !in rest;
    StepStack(cfg, env, keys, s);
    if env.canFetch(cfg.userAgent, url) {
      var depth := s.seen[url];
      var popped := s.(queue := rest);
      PushedAreNewSameDomain(cfg, env, popped, PageKeys(cfg, env, keys, url, depth), depth);
      NoDupConcat(rest, Pushed(cfg, env, popped, PageKeys(cfg, env, keys, url, depth), depth));
      NoDupConcat(s.downloads, [url]);
    } else {
      NoDupConcat(s.blocked, [url]);
    }
  }

  lemma StepKeepsConfined(cfg: Config, env: Env, keys: LinkKeys, s: Session)
    requires ConfinedInv(cfg, env, s) && s.queue != [] && Top(s.queue) in s.seen
    ensures ConfinedInv(cfg, env, Step(cfg, env, keys, s).next)
  {
    var url := Top(s.queue);
    var rest := s.queue[..|s.queue| - 1];
    assert s.queue == rest + [url];
    StepStack(cfg, env, keys, s);
    if env.canFetch(cfg.userAgent, url) {
      var depth := s.seen[url];
      PushedAreNewSameDomain(cfg, env, s.(queue := rest), PageKeys(cfg, env, keys, url, depth), depth);
    }
  }

  lemma StepKeepsPolite(cfg: Config, env: Env, keys: LinkKeys, s: Session)
    requires PoliteInv(cfg, env, s) && s.queue != [] && Top(s.queue) in s.seen
    ensures PoliteInv(cfg, env, Step(cfg, env, keys, s).next)
  {
    StepCounts(cfg, env, keys, s);
  }

  /** Every iteration preserves the invariant. */
  lemma StepPreservesInv(cfg: Config, env: Env, keys: LinkKeys, s: Session)
    requires Inv(cfg, env, s) && s.queue != []
    ensures Inv(cfg, env, Step(cfg, env, keys, s).next)
  {
    StepKeepsDepths(cfg, env, keys, s);
    StepKeepsRecorded(cfg, env, keys, s);
    StepKeepsOnce(cfg, env, keys, s);
    StepKeepsConfined(cfg, env, keys, s);
    StepKeepsPolite(cfg, env, keys, s);
  }

  /** The crawl draws its URLs from a finite universe: the seed lies in it,
      and so does every key a page of the universe in the seed's domain can
      contribute. Only such pages are ever downloaded, so this bounds the
      number of distinct URLs the loop can record, which is what makes it
      terminate. */
  ghost predicate Closed(cfg: Config, env: Env, keys: LinkKeys, universe: set<Url>)
  {
    && cfg.seedUrl in universe
    && forall url: Url, depth: nat, k: Url ::
         url in universe && SameDomain(env, cfg.seedUrl, url) && k in PageKeys(cfg, env, keys, url, depth) ==> k in universe
  }

  /** The loop has not yet reached a positive `max_urls`. */
  predicate BelowLimit(cfg: Config, s: Session)
  {
    1 <= cfg.maxUrls ==> s.numUrls < cfg.maxUrls
  }

  lemma ProperSubsetSmaller(a: set<Url>, b: set<Url>)
    requires a < b
    ensures |a| < |b|
  {
    assert b == a + (b - a);
    assert a * (b - a) == {};
  }

  /** Each iteration records a new key or makes the stack shorter. */
  lemma StepProgress(cfg: Config, env: Env, keys: LinkKeys, universe: set<Url>, s: Session)
    requires Closed(cfg, env, keys, universe) && s.seen.Keys <= universe && ConfinedInv(cfg, env, s)
    requires s.queue != [] && Top(s.queue) in s.seen
    ensures var next := Step(cfg, env, keys, s).next;
      && s.seen.Keys <= next.seen.Keys <= universe
      && (|universe - next.seen.Keys| < |universe - s.seen.Keys|
          || (next.seen.Keys == s.seen.Keys && |next.queue| < |s.queue|))
  {
    var url, next := Top(s.queue), Step(cfg, env, keys, s).next;
    StepSeen(cfg, env, keys, s);
    StepLifo(cfg, env, keys, s);
    assert next.seen.Keys <= universe by {
      forall k | k in next.seen ensures k in universe {
        if k !in s.seen {
          assert k in PageKeys(cfg, env, keys, url, s.seen[url]);
        }
      }
    }
    if |next.queue| >= |s.queue| {
      // something was pushed, and what is pushed is a new key
      var u := next.queue[|s.queue| - 1];
      assert u in next.queue[|s.queue| - 1..];
      assert u in next.seen.Keys && u !in s.seen.Keys;
    }
    if next.seen.Keys != s.seen.Keys {
      ProperSubsetSmaller(universe - next.seen.Keys, universe - s.seen.Keys);
    }
  }

  /** The whole `while crawl_queue` loop from state `s`: iterate until the
      stack is empty or a download brings the count to `max_urls`.
      RunKeepsInv, RunStops, RunKeepsSeen and RunExtendsLogs state what the
      loop achieves. */
  ghost function Run(cfg: Config, env: Env, keys: LinkKeys, universe: set<Url>, s: Session): (final: Session)
    requires Closed(cfg, env, keys, universe)
    requires Inv(cfg, env, s) && s.seen.Keys <= universe && BelowLimit(cfg, s)
    decreases |universe - s.seen.Keys|, |s.queue|
  {
    if s.queue == [] then s
    else
      var step := Step(cfg, env, keys, s);
      StepPreservesInv(cfg, env, keys, s);
      StepProgress(cfg, env, keys, universe, s);
      StepCounts(cfg, env, keys, s);
      if step.stop then step.next else Run(cfg, env, keys, universe, step.next)
  }

  /** The invariant holds when the loop ends. */
  lemma {:induction false} RunKeepsInv(cfg: Config, env: Env, keys: LinkKeys, universe: set<Url>, s: Session)
    requires Closed(cfg, env, keys, universe)
    requires Inv(cfg, env, s) && s.seen.Keys <= universe && BelowLimit(cfg, s)
    ensures Inv(cfg, env, Run(cfg, env, keys, universe, s))
    decreases |universe - s.seen.Keys|, |s.queue|
  {
    if s.queue != [] {
      var step := Step(cfg, env, keys, s);
      StepPreservesInv(cfg, env, keys, s);
      StepProgress(cfg, env, keys, universe, s);
      StepCounts(cfg, env, keys, s);
      if !step.stop {
        RunKeepsInv(cfg, env, keys, universe, step.next);
      }
    }
  }

  /** The loop ends on an empty stack, or by `break` at exactly `max_urls`
      downloads; with a positive `max_urls` it never downloads more, and with
      `max_urls` below 1 it never stops early. */
  lemma {:induction false} RunStops(cfg: Config, env: Env, keys: LinkKeys, universe: set<Url>, s: Session)
    requires Closed(cfg, env, keys, universe)
    requires Inv(cfg, env, s) && s.seen.Keys <= universe && BelowLimit(cfg, s)
    ensures var r := Run(cfg, env, keys, universe, s);
      && (r.queue == [] || (1 <= cfg.maxUrls && r.numUrls == cfg.maxUrls))
      && (1 <= cfg.maxUrls ==> r.numUrls <= cfg.maxUrls)
    decreases |universe - s.seen.Keys|, |s.queue|
  {
    if s.queue != [] {
      var step := Step(cfg, env, keys, s);
      StepPreservesInv(cfg, env, keys, s);
      StepProgress(cfg, env, keys, universe, s);
      StepCounts(cfg, env, keys, s);
      if !step.stop {
        RunStops(cfg, env, keys, universe, step.next);
      }
    }
  }

  /** Over the whole loop `seen` only grows and no depth is overwritten:
      first discovery wins. */
  lemma {:induction false} RunKeepsSeen(cfg: Config, env: Env, keys: LinkKeys, universe: set<Url>, s: Session)
    requires Closed(cfg, env, keys, universe)
    requires Inv(cfg, env, s) && s.seen.Keys <= universe && BelowLimit(cfg, s)
    ensures var r := Run(cfg, env, keys, universe, s);
      forall k :: k in s.seen ==> k in r.seen && r.seen[k] == s.seen[k]
    decreases |universe - s.seen.Keys|, |s.queue|
  {
    if s.queue != [] {
      var step := Step(cfg, env, keys, s);
      StepPreservesInv(cfg, env, keys, s);
      StepProgress(cfg, env, keys, universe, s);
      StepCounts(cfg, env, keys, s);
      StepSeen(cfg, env, keys, s);
      if !step.stop {
        RunKeepsSeen(cfg, env, keys, universe, step.next);
      }
    }
  }

  /** Over the whole loop the download and blocked logs only grow. */
  lemma {:induction false} RunExtendsLogs(cfg: Config, env: Env, keys: LinkKeys, universe: set<Url>, s: Session)
    requires Closed(cfg, env, keys, universe)
    requires Inv(cfg, env, s) && s.seen.Keys <= universe && BelowLimit(cfg, s)
    ensures var r := Run(cfg, env, keys, universe, s);
      s.downloads <= r.downloads && s.blocked <= r.blocked
    decreases |universe - s.seen.Keys|, |s.queue|
  {
    if s.queue != [] {
      var step := Step(cfg, env, keys, s);
      StepPreservesInv(cfg, env, keys, s);
      StepProgress(cfg, env, keys, universe, s);
      StepCounts(cfg, env, keys, s);
      if !step.stop {
        RunExtendsLogs(cfg, env, keys, universe, step.next);
      }
    }
  }

  /** The crawl as a whole: the loop run from the seed alone. */
  ghost function Crawl(cfg: Config, env: Env, keys: LinkKeys, universe: set<Url>): (final: Session)
    requires Closed(cfg, env, keys, universe)
  {
    InitEstablishesInv(cfg, env);
    Run(cfg, env, keys, universe, Init(cfg))
  }

  /** The candidate links of a downloaded page, gathered as `link_crawler`
      does: the callback's links, then, below `max_depth` and when a pattern
      is set, the extracted links the pattern matches. */
  method GatherLinks(cfg: Config, env: Env, url: Url, html: Page, depth: nat) returns (links: seq<Url>)
    requires html == env.download(url)
    ensures links == Candidates(cfg, env, url, depth)
  {
    links := [];
    if env.scrapeCallback.Some? {
      links := links + CallbackLinks(env, url, html);
    }
    if depth != cfg.maxDepth {
      if HasPattern(cfg.linkRegex) {
        links := links + MatchingLinks(env, cfg.linkRegex.value, env.extractLinks(html));
      }
    }
  }

  /** The inner `for link in links` loop of `link_crawler`, as written: the
      raw link is the key, and `normalize`'s result is dropped. */
  method RecordLinks(cfg: Config, env: Env, s: Session, links: seq<Url>, depth: nat)
    returns (queue': seq<Url>, seen': map<Url, nat>)
    ensures s.(queue := queue', seen := seen') == AdmitLinks(cfg, env, s, links, depth)
  {
    queue', seen' := s.queue, s.seen;
    for i := 0 to |links|
      invariant AdmitLinks(cfg, env, s, links[..i], depth) == s.(queue := queue', seen := seen')
    {
      var link := links[i];
      ghost var before := s.(queue := queue', seen := seen');
      assert links[..i + 1] == links[..i] + [link];
      AdmitLinksSnoc(cfg, env, s, links[..i], link, depth);
      // the source computes normalize(seed_url, link) here and discards the result
      var _ := env.normalize(cfg.seedUrl, link);
      if link !in seen' {
        seen' := seen'[link := depth + 1];
        if SameDomain(env, cfg.seedUrl, link) {
          queue' := queue' + [link];
        }
      }
      assert s.(queue := queue', seen := seen') == AdmitLink(cfg, env, before, link, depth);
    }
    assert links[..|links|] == links;
  }

  /** `link_crawler` as written: the registry is keyed by the raw links. The
      result is the final traversal state together with the URLs handed to
      the downloader and those reported as blocked, in order. */
  method LinkCrawler(cfg: Config, env: Env, ghost universe: set<Url>) returns (final: Session)
    requires Closed(cfg, env, RawLinks, universe)
    ensures final == Crawl(cfg, env, RawLinks, universe)
  {
    var crawlQueue := [cfg.seedUrl];
    var seen: map<Url, nat> := map[cfg.seedUrl := 0];
    var numUrls: nat := 0;
    var downloads: seq<Url> := [];
    var blocked: seq<Url> := [];
    InitEstablishesInv(cfg, env);
    while crawlQueue != []
      invariant var s := Session(crawlQueue, seen, numUrls, downloads, blocked);
        && Inv(cfg, env, s) && seen.Keys <= universe && BelowLimit(cfg, s)
        && Run(cfg, env, RawLinks, universe, s) == Crawl(cfg, env, RawLinks, universe)
      decreases |universe - seen.Keys|, |crawlQueue|
    {
      ghost var before := Session(crawlQueue, seen, numUrls, downloads, blocked);
      StepPreservesInv(cfg, env, RawLinks, before);
      StepProgress(cfg, env, RawLinks, universe, before);
      var url := crawlQueue[|crawlQueue| - 1];
      crawlQueue := crawlQueue[..|crawlQueue| - 1];
      var depth := seen[url];
      if env.canFetch(cfg.userAgent, url) {
        var html := env.download(url);
        var links := GatherLinks(cfg, env, url, html, depth);
        var popped := Session(crawlQueue, seen, numUrls, downloads, blocked);
        crawlQueue, seen := RecordLinks(cfg, env, popped, links, depth);
        numUrls := numUrls + 1;
        downloads := downloads + [url];
        ghost var admitted := AdmitLinks(cfg, env, popped, PageKeys(cfg, env, RawLinks, url, depth), depth);
        assert Step(cfg, env, RawLinks, before).next == admitted.(numUrls := admitted.numUrls + 1, downloads := admitted.downloads + [url]);
        if numUrls == cfg.maxUrls {
          break;
        }
      } else {
        blocked := blocked + [url];
      }
    }
    final := Session(crawlQueue, seen, numUrls, downloads, blocked);
  }

  /** Over a whole crawl, a URL is downloaded at most once, reported blocked
      at most once, and never both. */
  lemma CrawlProcessesEachUrlOnce(cfg: Config, env: Env, keys: LinkKeys, universe: set<Url>)
    requires Closed(cfg, env, keys, universe)
    ensures var r := Crawl(cfg, env, keys, universe);
      && NoDup(r.downloads) && NoDup(r.blocked)
      && (forall u :: u in r.downloads ==> u !in r.blocked)
  {
    InitEstablishesInv(cfg, env);
    RunKeepsInv(cfg, env, keys, universe, Init(cfg));
  }

  /** Over a whole crawl, every URL downloaded or reported blocked is the
      seed or has the seed's network location, and is a key of `seen`. */
  lemma CrawlStaysInSeedDomain(cfg: Config, env: Env, keys: LinkKeys, universe: set<Url>)
    requires Closed(cfg, env, keys, universe)
    ensures var r := Crawl(cfg, env, keys, universe);
      && (forall u :: u in r.downloads ==> env.netloc(u) == env.netloc(cfg.seedUrl) && u in r.seen)
      && (forall u :: u in r.blocked ==> env.netloc(u) == env.netloc(cfg.seedUrl) && u in r.seen)
  {
    InitEstablishesInv(cfg, env);
    RunKeepsInv(cfg, env, keys, universe, Init(cfg));
  }

  /** Over a whole crawl, the seed keeps depth 0, every other key has depth
      1 or more, downloads happen only where robots.txt allows them, and
      `num_urls` is the number of downloads: at most `max_urls` when that
      is positive, and, when the loop stopped with URLs still on the stack,
      exactly `max_urls`. */
  lemma CrawlCountsDownloads(cfg: Config, env: Env, keys: LinkKeys, universe: set<Url>)
    requires Closed(cfg, env, keys, universe)
    ensures var r := Crawl(cfg, env, keys, universe);
      && cfg.seedUrl in r.seen && r.seen[cfg.seedUrl] == 0
      && (forall k :: k in r.seen && k != cfg.seedUrl ==> r.seen[k] >= 1)
      && (forall u :: u in r.downloads ==> env.canFetch(cfg.userAgent, u))
      && (forall u :: u in r.blocked ==> !env.canFetch(cfg.userAgent, u))
      && r.numUrls == |r.downloads|
      && (1 <= cfg.maxUrls ==> |r.downloads| <= cfg.maxUrls)
      && (r.queue != [] ==> 1 <= cfg.maxUrls && |r.downloads| == cfg.maxUrls)
  {
    InitEstablishesInv(cfg, env);
    RunKeepsInv(cfg, env, keys, universe, Init(cfg));
    RunStops(cfg, env, keys, universe, Init(cfg));
  }

  /** The stop test is an equality reached only by counting up from 1, so a
      `max_urls` below 1 (the default -1, or 0) never stops the loop early:
      it runs until the stack is empty. */
  lemma CrawlUnboundedBelowOne(cfg: Config, env: Env, keys: LinkKeys, universe: set<Url>)
    requires Closed(cfg, env, keys, universe) && cfg.maxUrls < 1
    ensures Crawl(cfg, env, keys, universe).queue == []
  {
    InitEstablishesInv(cfg, env);
    RunStops(cfg, env, keys, universe, Init(cfg));
  }

  /** Without a scrape callback and with `max_depth >= 0`, no URL deeper
      than `max_depth` is ever recorded, so none is downloaded. */
  lemma CrawlDepthCutoff(cfg: Config, env: Env, keys: LinkKeys, universe: set<Url>)
    requires Closed(cfg, env, keys, universe)
    requires env.scrapeCallback.None? && 0 <= cfg.maxDepth
    ensures var r := Crawl(cfg, env, keys, universe);
      forall u :: u in r.downloads ==> u in r.seen && r.seen[u] <= cfg.maxDepth
  {
    InitEstablishesInv(cfg, env);
    RunKeepsInv(cfg, env, keys, universe, Init(cfg));
  }

  /** When robots.txt refuses the seed, the crawl downloads nothing: the seed
      is popped, reported blocked, and the loop ends on the empty stack. */
  lemma CrawlSeedBlocked(cfg: Config, env: Env, keys: LinkKeys, universe: set<Url>)
    requires Closed(cfg, env, keys, universe)
    requires !env.canFetch(cfg.userAgent, cfg.seedUrl)
    ensures Crawl(cfg, env, keys, universe) == Session([], map[cfg.seedUrl := 0], 0, [], [cfg.seedUrl])
  {
    var s := Init(cfg);
    InitEstablishesInv(cfg, env);
    var next := Step(cfg, env, keys, s).next;
    assert next == Session([], map[cfg.seedUrl := 0], 0, [], [cfg.seedUrl]);
    StepPreservesInv(cfg, env, keys, s);
    StepProgress(cfg, env, keys, universe, s);
    assert Run(cfg, env, keys, universe, s) == Run(cfg, env, keys, universe, next);
  }

  /** With `max_depth` 0 and no callback, the crawl handles the seed alone:
      no link of the seed's page is gathered, so `seen` stays the seed at
      depth 0 and the loop ends after one iteration. */
  lemma CrawlDepthZero(cfg: Config, env: Env, keys: LinkKeys, universe: set<Url>)
    requires Closed(cfg, env, keys, universe)
    requires env.scrapeCallback.None? && cfg.maxDepth == 0
    ensures Crawl(cfg, env, keys, universe) ==
      if env.canFetch(cfg.userAgent, cfg.seedUrl)
      then Session([], map[cfg.seedUrl := 0], 1, [cfg.seedUrl], [])
      else Session([], map[cfg.seedUrl := 0], 0, [], [cfg.seedUrl])
  {
    if !env.canFetch(cfg.userAgent, cfg.seedUrl) {
      CrawlSeedBlocked(cfg, env, keys, universe);
    } else {
      var s := Init(cfg);
      InitEstablishesInv(cfg, env);
      assert PageKeys(cfg, env, keys, cfg.seedUrl, 0) == [];
      var next := Step(cfg, env, keys, s).next;
      StepPreservesInv(cfg, env, keys, s);
      StepProgress(cfg, env, keys, universe, s);
      assert AdmitLinks(cfg, env, s.(queue := []), [], 0) == s.(queue := []);
      assert next == Session([], map[cfg.seedUrl := 0], 1, [cfg.seedUrl], []);
      if cfg.maxUrls != 1 {
        assert Run(cfg, env, keys, universe, s) == Run(cfg, env, keys, universe, next);
      }
    }
  }

  /* The discarded `normalize` result. Two links that differ only by a
     fragment, such as `/a` and `/a#frag` on the page of
     `http://example.test/`, normalize to the same address; a relative link
     such as `/a` has an empty network location until it is joined with the
     seed. */

  /** As written, two fragment variants of one address become two registry
      entries. */
  lemma RawKeysSplitFragmentVariants(cfg: Config, env: Env, s: Session, l1: Url, l2: Url, depth: nat)
    requires l1 != l2 && l1 !in s.seen && l2 !in s.seen
    requires env.normalize(cfg.seedUrl, l1) == env.normalize(cfg.seedUrl, l2)
    ensures var r := AdmitLinks(cfg, env, s, RegistryKeys(cfg, env, RawLinks, [l1, l2]), depth);
      r.seen.Keys == s.seen.Keys + {l1, l2} && |r.seen| == |s.seen| + 2
  {
    assert (set l | l in [l1, l2]) == {l1, l2};
  }

  /** As written, a relative link is never pushed, even when it resolves to
      a page of the seed's site, because its raw text has another network
      location. */
  lemma RawKeysDropRelativeLinks(cfg: Config, env: Env, s: Session, link: Url, depth: nat)
    requires env.netloc(link) != env.netloc(cfg.seedUrl)
    requires env.netloc(env.normalize(cfg.seedUrl, link)) == env.netloc(cfg.seedUrl)
    ensures AdmitLinks(cfg, env, s, RegistryKeys(cfg, env, RawLinks, [link]), depth).queue == s.queue
  {
    assert [link][..0] == [];
  }

  /** Keyed by the normalized address, fragment variants share one entry. */
  lemma NormalizedKeysMergeFragmentVariants(cfg: Config, env: Env, s: Session, l1: Url, l2: Url, depth: nat)
    requires env.normalize(cfg.seedUrl, l1) == env.normalize(cfg.seedUrl, l2)
    requires env.normalize(cfg.seedUrl, l1) !in s.seen
    ensures var r := AdmitLinks(cfg, env, s, RegistryKeys(cfg, env, NormalizedLinks, [l1, l2]), depth);
      r.seen.Keys == s.seen.Keys + {env.normalize(cfg.seedUrl, l1)} && |r.seen| == |s.seen| + 1
  {
    var keys := RegistryKeys(cfg, env, NormalizedLinks, [l1, l2]);
    assert keys == [env.normalize(cfg.seedUrl, l1), env.normalize(cfg.seedUrl, l1)];
    assert (set l | l in keys) == {env.normalize(cfg.seedUrl, l1)};
  }

  /** Keyed by the normalized address, a relative link to the seed's site is
      recorded and pushed as its absolute address. */
  lemma NormalizedKeysFollowRelativeLinks(cfg: Config, env: Env, s: Session, link: Url, depth: nat)
    requires env.netloc(env.normalize(cfg.seedUrl, link)) == env.netloc(cfg.seedUrl)
    requires env.normalize(cfg.seedUrl, link) !in s.seen
    ensures var r := AdmitLinks(cfg, env, s, RegistryKeys(cfg, env, NormalizedLinks, [link]), depth);
      r.queue == s.queue + [env.normalize(cfg.seedUrl, link)]
      && r.seen == s.seen[env.normalize(cfg.seedUrl, link) := depth + 1]
  {
    var keys := RegistryKeys(cfg, env, NormalizedLinks, [link]);
    assert keys == [env.normalize(cfg.seedUrl, link)];
    assert keys[..0] == [];
  }
}
