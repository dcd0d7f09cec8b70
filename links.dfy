/** The collaborators of the crawl loop: the robots policy, the downloader, the
    scrape callback, the link extractor, the regular-expression matcher and the
    URL parsing helpers. The loop only calls them, so they are modelled as pure
    functions fixed for one run, held together in `Env`. */
module Links {

  /** URLs and link strings, as raw text. */
  type Url = string

  /** A downloaded page body. */
  type Page = seq<bv8>

  datatype Option<T> = None | Some(value: T)

  /** Everything the loop calls but does not define.
      - `canFetch(agent, url)`: `rp.can_fetch`, the robots policy of the seed's
        site, read once before the loop starts.
      - `download(url)`: the `Downloader` instance `D`; delay, proxies,
        retries and cache live inside it.
      - `scrapeCallback`: the optional user callback; it may return a list of
        links or nothing (`None`), which the loop reads as no links.
      - `extractLinks(page)`: `get_links`, the UTF-8 decode followed by the
        anchor-href regular expression.
      - `reMatch(pattern, link)`: whether `re.match(pattern, link)` succeeds.
      - `netloc(url)`: the network location `urlparse(url).netloc`.
      - `normalize(base, link)`: `urljoin(base, urldefrag(link))`. */
  datatype Env = Env(
    canFetch: (string, Url) -> bool,
    download: Url -> Page,
    scrapeCallback: Option<(Url, Page) -> Option<seq<Url>>>,
    extractLinks: Page -> seq<Url>,
    reMatch: (string, Url) -> bool,
    netloc: Url -> string,
    normalize: (Url, Url) -> Url)

  /** `same_domain`: two URLs are in the same domain when their network
      locations are equal. Every URL is in its own domain, which is why the
      seed always passes the domain filter. */
  function SameDomain(env: Env, a: Url, b: Url): (same: bool)
    ensures a == b ==> same
  {
    env.netloc(a) == env.netloc(b)
  }

  /** The domain filter is an equivalence: reflexive, symmetric and transitive. */
  lemma SameDomainIsEquivalence(env: Env, a: Url, b: Url, c: Url)
    ensures SameDomain(env, a, a)
    ensures SameDomain(env, a, b) ==> SameDomain(env, b, a)
    ensures SameDomain(env, a, b) && SameDomain(env, b, c) ==> SameDomain(env, a, c)
  {
  }

  /** The links the callback contributes: `scrape_callback(url, html) or []`. */
  function CallbackLinks(env: Env, url: Url, page: Page): (links: seq<Url>)
    ensures env.scrapeCallback.None? ==> links == []
    ensures env.scrapeCallback.Some? ==>
              links == (if env.scrapeCallback.value(url, page).Some? then env.scrapeCallback.value(url, page).value else [])
  {
    match env.scrapeCallback
    case None => []
    case Some(callback) =>
      match callback(url, page)
      case None => []
      case Some(found) => found
  }

  /** `link_regex` is truthy: present and not the empty string. */
  predicate HasPattern(linkRegex: Option<string>)
  {
    linkRegex.Some? && linkRegex.value != ""
  }

  /** The generator `link for link in links if re.match(pattern, link)`:
      keeps exactly the links the pattern matches, in their order. */
  function MatchingLinks(env: Env, pattern: string, links: seq<Url>): (kept: seq<Url>)
    ensures |kept| <= |links|
    ensures forall l :: l in kept <==> l in links && env.reMatch(pattern, l)
  {
    if links == [] then []
    else if env.reMatch(pattern, links[0]) then [links[0]] + MatchingLinks(env, pattern, links[1..])
    else MatchingLinks(env, pattern, links[1..])
  }

  /** The filter works link by link: filtering a concatenation filters each
      part, so the kept links keep their order and their repeats. */
  lemma {:induction false} MatchingLinksAppend(env: Env, pattern: string, xs: seq<Url>, ys: seq<Url>)
    ensures MatchingLinks(env, pattern, xs + ys) == MatchingLinks(env, pattern, xs) + MatchingLinks(env, pattern, ys)
    decreases |xs|
  {
    if xs == [] {
      assert xs + ys == ys;
    } else {
      assert (xs + ys)[0] == xs[0] && (xs + ys)[1..] == xs[1..] + ys;
      MatchingLinksAppend(env, pattern, xs[1..], ys);
    }
  }

  /** A single link is kept exactly when the pattern matches it. */
  lemma MatchingLinksSingle(env: Env, pattern: string, link: Url)
    ensures MatchingLinks(env, pattern, [link]) == if env.reMatch(pattern, link) then [link] else []
  {
    assert [link][1..] == [];
  }
}
