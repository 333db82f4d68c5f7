/**
 PromoLink rows and the Articles bound to them: the writes of the claim handler
 (worker/handlers/promo-link-claim.ts), catalog capture (worker/handlers/moboreader.ts)
 and `bindPromoLinkToArticles` (worker/handlers/promo-link-binding.ts), beside the Articles'
 own creation, deletion and rebinding (src/server/article-rebind/service.ts).

 A row is identified by its idempotency key.  A unique-constraint or foreign-key
 violation aborts the enclosing transaction, which then leaves no trace.
 */
module PromoBinding {
  import opened Sequences
  import opened Wrappers

  type Key = string
  type NovelId = string
  type ArticleId = string

  datatype Status = Pending | RegisteredDisabled | ClaimFailed | Fetched
  datatype Origin = UpstreamExisting | ByClaim

  datatype PromoLink = PromoLink(
    novel: NovelId, redirectCode: string, origin: Origin, status: Status,
    upstreamCode: Option<string>, webUrl: Option<string>, everFetched: bool)

  datatype Article = Article(id: ArticleId, novel: Option<NovelId>, deleted: bool, promoLink: Option<Key>)

  /** What happens to a row of the findMany: written, left as it is, or left to another link. */
  datatype Kind = Bound | AlreadyBound | Conflicted

  datatype BindingResult = BindingResult(bound: seq<ArticleId>, alreadyBound: seq<ArticleId>,
      conflicted: seq<ArticleId>)

  /** The claim handler's terminal writes. */
  datatype ClaimWrite = CapabilityDisabled | ManualReview | Failure
                      | Success(origin: Origin, code: string, webUrl: Option<string>)

  datatype Event =
    | Claim(key: Key, novel: NovelId, newCode: string, write: ClaimWrite)
    | Capture(key: Key, source: Option<NovelId>, linked: bool, code: string, url: string, newCode: string)
    | Reconcile(key: Key, novel: NovelId)
    | CreateArticle(id: ArticleId, owner: Option<NovelId>, link: Option<Key>)
    | DeleteArticle(id: ArticleId)
    | Rebind(id: ArticleId, from: NovelId, to: NovelId, link: Option<Key>, allowed: bool)

  datatype Tables = Tables(links: map<Key, PromoLink>, articles: seq<Article>)

  // ---------------------------------------------------------------------
  // Binding
  // ---------------------------------------------------------------------

  predicate Live(a: Article, novel: NovelId) {
    a.novel == Some(novel) && !a.deleted
  }

  function Classify(a: Article, key: Key): Kind {
    if a.promoLink == Some(key) then AlreadyBound else if a.promoLink.Some? then Conflicted else Bound
  }

  function BindRow(a: Article, novel: NovelId, key: Key): Article {
    if Live(a, novel) && Classify(a, key) == Bound then a.(promoLink := Some(key)) else a
  }

  function BindRows(rows: seq<Article>, novel: NovelId, key: Key): seq<Article> {
    seq(|rows|, i requires 0 <= i < |rows| => BindRow(rows[i], novel, key))
  }

  /** The composite foreign key (link, novel) refuses a binding across novels. */
  predicate BindingAborts(t: Tables, novel: NovelId, key: Key)
    requires key in t.links
  {
    t.links[key].novel != novel && exists a <- t.articles :: Live(a, novel) && Classify(a, key) == Bound
  }

  function IdsOf(rows: seq<Article>, novel: NovelId, key: Key, kind: Kind): seq<ArticleId> {
    if rows == [] then []
    else
      var a := rows[|rows| - 1];
      IdsOf(rows[..|rows| - 1], novel, key, kind) +
      (if Live(a, novel) && Classify(a, key) == kind then [a.id] else [])
  }

  function Lists(rows: seq<Article>, novel: NovelId, key: Key): BindingResult {
    BindingResult(IdsOf(rows, novel, key, Bound), IdsOf(rows, novel, key, AlreadyBound),
        IdsOf(rows, novel, key, Conflicted))
  }

  predicate DistinctIds(rows: seq<Article>) {
    forall i, j :: 0 <= i < j < |rows| ==> rows[i].id != rows[j].id
  }

  /** Row `i` is a live Article of the novel with this id and outcome. */
  predicate Matches(a: Article, id: ArticleId, novel: NovelId, key: Key, kind: Kind) {
    a.id == id && Live(a, novel) && Classify(a, key) == kind
  }

  lemma {:induction false} IdsOfMembers(rows: seq<Article>, novel: NovelId, key: Key, kind: Kind, id: ArticleId)
    ensures id in IdsOf(rows, novel, key, kind) <==>
              exists i :: 0 <= i < |rows| && Matches(rows[i], id, novel, key, kind)
  {
    if rows != [] {
      var last := |rows| - 1;
      IdsOfMembers(rows[..last], novel, key, kind, id);
      if Matches(rows[last], id, novel, key, kind) {
        assert id in IdsOf(rows, novel, key, kind);
      } else if i :| 0 <= i < |rows| && Matches(rows[i], id, novel, key, kind) {
        assert rows[..last][i] == rows[i];
      }
    }
  }

  lemma {:induction false} IdsOfDistinct(rows: seq<Article>, novel: NovelId, key: Key, kind: Kind)
    requires DistinctIds(rows)
    ensures Distinct(IdsOf(rows, novel, key, kind))
  {
    if rows != [] {
      var last := |rows| - 1;
      IdsOfDistinct(rows[..last], novel, key, kind);
      IdsOfMembers(rows[..last], novel, key, kind, rows[last].id);
      var front := IdsOf(rows[..last], novel, key, kind);
      assert forall i :: 0 <= i < |front| ==> front[i] in front;
    }
  }

  /** The three lists are duplicate-free, pairwise disjoint, and together hold exactly the novel's live Articles. */
  lemma BindingPartitions(rows: seq<Article>, novel: NovelId, key: Key, id: ArticleId)
    requires DistinctIds(rows)
    ensures var r := Lists(rows, novel, key);
            && ((id in r.bound || id in r.alreadyBound || id in r.conflicted) <==>
                  exists i :: 0 <= i < |rows| && rows[i].id == id && Live(rows[i], novel))
            && !(id in r.bound && id in r.alreadyBound)
            && !(id in r.bound && id in r.conflicted)
            && !(id in r.alreadyBound && id in r.conflicted)
            && multiset(r.bound + r.alreadyBound + r.conflicted)[id] <= 1
  {
    var r := Lists(rows, novel, key);
    forall kind | kind in {Bound, AlreadyBound, Conflicted}
      ensures id in IdsOf(rows, novel, key, kind) <==>
                exists i :: 0 <= i < |rows| && Matches(rows[i], id, novel, key, kind)
      ensures multiset(IdsOf(rows, novel, key, kind))[id] <= 1
    {
      IdsOfMembers(rows, novel, key, kind, id);
      IdsOfDistinct(rows, novel, key, kind);
      CountInDistinct(IdsOf(rows, novel, key, kind), id);
    }
    forall i | 0 <= i < |rows| && rows[i].id == id && Live(rows[i], novel)
      ensures Matches(rows[i], id, novel, key, Classify(rows[i], key)) {}
    assert multiset(r.bound + r.alreadyBound + r.conflicted)
        == multiset(r.bound) + multiset(r.alreadyBound) + multiset(r.conflicted);
  }

  lemma {:induction false} ListedIff(rows: seq<Article>, novel: NovelId, key: Key, kind: Kind, id: ArticleId)
    ensures id in IdsOf(rows, novel, key, kind) <==> exists a <- rows :: Matches(a, id, novel, key, kind)
  {
    IdsOfMembers(rows, novel, key, kind, id);
    if i :| 0 <= i < |rows| && Matches(rows[i], id, novel, key, kind) {
      assert rows[i] in rows;
    }
  }

  /** Which Article is in which list: unbound, bound to this link, bound to another. */
  lemma ListsInFull(rows: seq<Article>, novel: NovelId, key: Key, id: ArticleId)
    ensures id in Lists(rows, novel, key).bound <==>
      exists a <- rows :: a.id == id && a.novel == Some(novel) && !a.deleted && a.promoLink == None
    ensures id in Lists(rows, novel, key).alreadyBound <==>
      exists a <- rows :: a.id == id && a.novel == Some(novel) && !a.deleted && a.promoLink == Some(key)
    ensures id in Lists(rows, novel, key).conflicted <==>
      exists a <- rows ::
        a.id == id && a.novel == Some(novel) && !a.deleted && a.promoLink.Some? && a.promoLink != Some(key)
  {
    ListedIff(rows, novel, key, Bound, id);
    ListedIff(rows, novel, key, AlreadyBound, id);
    ListedIff(rows, novel, key, Conflicted, id);
    forall a | a in rows && a.id == id && a.novel == Some(novel) && !a.deleted
      ensures Matches(a, id, novel, key, Bound) <==> a.promoLink == None
      ensures Matches(a, id, novel, key, AlreadyBound) <==> a.promoLink == Some(key)
      ensures Matches(a, id, novel, key, Conflicted) <==> a.promoLink.Some? && a.promoLink != Some(key)
    {
    }
  }

  lemma {:induction false} CountInDistinct<T>(xs: seq<T>, x: T)
    requires Distinct(xs)
    ensures multiset(xs)[x] <= 1
  {
    if xs != [] {
      CountInDistinct(xs[1..], x);
      assert xs == [xs[0]] + xs[1..];
      assert xs[0] !in xs[1..];
    }
  }

  /** After a binding call the same call binds nothing, writes nothing and sees its own work as already bound. */
  lemma {:induction false} RebindingIsIdle(rows: seq<Article>, novel: NovelId, key: Key)
    ensures var after := BindRows(rows, novel, key);
            && BindRows(after, novel, key) == after
            && IdsOf(after, novel, key, Bound) == []
            && IdsOf(after, novel, key, Conflicted) == IdsOf(rows, novel, key, Conflicted)
            && |IdsOf(after, novel, key, AlreadyBound)|
               == |IdsOf(rows, novel, key, Bound)| + |IdsOf(rows, novel, key, AlreadyBound)|
  {
    var after := BindRows(rows, novel, key);
    if rows != [] {
      RebindingIsIdle(rows[..|rows| - 1], novel, key);
      assert after[..|after| - 1] == BindRows(rows[..|rows| - 1], novel, key);
    }
  }

  // ---------------------------------------------------------------------
  // Transactions as functions on the tables; None is an aborted transaction
  // ---------------------------------------------------------------------

  predicate RedirectTaken(links: map<Key, PromoLink>, code: string) {
    exists k :: k in links && links[k].redirectCode == code
  }

  function EnsureRow(links: map<Key, PromoLink>, key: Key, novel: NovelId, newCode: string)
      : Option<map<Key, PromoLink>> {
    if key in links then Some(links)
    else if RedirectTaken(links, newCode) then None
    else Some(links[key := PromoLink(novel, newCode, UpstreamExisting, Pending, None, None, false)])
  }

  function Bind(t: Tables, novel: NovelId, key: Key): Option<Tables>
    requires key in t.links
  {
    if BindingAborts(t, novel, key) then None else Some(t.(articles := BindRows(t.articles, novel, key)))
  }

  function WriteLink(row: PromoLink, w: ClaimWrite): PromoLink {
    match w
    case CapabilityDisabled => row.(status := RegisteredDisabled)
    case ManualReview => row.(status := Pending)
    case Failure => row.(status := ClaimFailed)
    case Success(origin, code, url) =>
      row.(status := Fetched, origin := origin, upstreamCode := Some(code), webUrl := url, everFetched := true)
  }

  function CaptureRow(row: PromoLink, code: string, url: string): PromoLink {
    row.(status := Fetched, upstreamCode := Some(code), webUrl := Some(url), everFetched := true)
  }

  function ClaimTx(t: Tables, key: Key, novel: NovelId, newCode: string, w: ClaimWrite): Option<Tables> {
    match EnsureRow(t.links, key, novel, newCode)
    case None => None
    case Some(links) =>
      var u := t.(links := links[key := WriteLink(links[key], w)]);
      if w.Success? then Bind(u, novel, key) else Some(u)
  }

  function CaptureTx(t: Tables, key: Key, source: Option<NovelId>, linked: bool, code: string,
        url: string, newCode: string)
    : Option<Tables>
  {
    if code == "" || url == "" || source.None? || !linked then Some(t)
    else match EnsureRow(t.links, key, source.value, newCode)
      case None => None
      case Some(links) => Bind(t.(links := links[key := CaptureRow(links[key], code, url)]), source.value, key)
  }

  /** The composite foreign key on a row's link and Novel. */
  predicate LinkOfNovel(t: Tables, link: Option<Key>, novel: Option<NovelId>) {
    link.Some? ==> link.value in t.links && novel == Some(t.links[link.value].novel)
  }

  /** An Article is generated with a link that was ready when it was looked up. */
  function CreateTx(t: Tables, id: ArticleId, owner: Option<NovelId>, link: Option<Key>): Option<Tables> {
    if exists a <- t.articles :: a.id == id then None
    else if !LinkOfNovel(t, link, owner) || (link.Some? && !t.links[link.value].everFetched) then None
    else Some(t.(articles := t.articles + [Article(id, owner, false, link)]))
  }

  /** The row a rebind writes: live, and still on the Novel the operator saw. */
  predicate RebindsRow(a: Article, id: ArticleId, from: NovelId) {
    a.id == id && Live(a, from)
  }

  /**
   The guards of a rebind: another Novel, a row to write, and a link of the target Novel that
   is ready now, or none; `allowed` stands for the guards about locale, rights and publication.
   */
  predicate MayRebind(t: Tables, id: ArticleId, from: NovelId, to: NovelId, link: Option<Key>, allowed: bool) {
    && allowed && to != from && LinkOfNovel(t, link, Some(to))
    && (link.Some? ==> t.links[link.value].status == Fetched)
    && exists a <- t.articles :: RebindsRow(a, id, from)
  }

  /** Exactly two fields are written: the Novel and the link. */
  function RebindRows(rows: seq<Article>, id: ArticleId, from: NovelId, to: NovelId, link: Option<Key>): seq<Article> {
    seq(|rows|, i requires 0 <= i < |rows| =>
      if RebindsRow(rows[i], id, from) then rows[i].(novel := Some(to), promoLink := link) else rows[i])
  }

  function Apply(t: Tables, e: Event): (r: Tables) {
    var outcome: Option<Tables> :=
      match e
      case Claim(key, novel, newCode, w) => ClaimTx(t, key, novel, newCode, w)
      case Capture(key, source, linked, code, url, newCode) => CaptureTx(t, key, source, linked, code, url, newCode)
      case Reconcile(key, novel) =>
        if key in t.links && t.links[key].status == Fetched then Bind(t, novel, key) else None
      case CreateArticle(id, owner, link) => CreateTx(t, id, owner, link)
      case Rebind(id, from, to, link, allowed) =>
        if MayRebind(t, id, from, to, link, allowed)
        then Some(t.(articles := RebindRows(t.articles, id, from, to, link))) else None
      case DeleteArticle(id) =>
        Some(t.(articles := seq(|t.articles|, i requires 0 <= i < |t.articles| =>
          if t.articles[i].id == id then t.articles[i].(deleted := true) else t.articles[i])));
    if outcome.Some? then outcome.value else t
  }

  function ApplyAll(t: Tables, events: seq<Event>): Tables
    decreases |events|
  {
    if events == [] then t else ApplyAll(Apply(t, events[0]), events[1..])
  }

  // ---------------------------------------------------------------------
  // What a committed claim or capture leaves in which field
  // ---------------------------------------------------------------------

  /** The row of `key` was there and keeps its identity, or is new under a redirect code nobody has. */
  predicate OneRowWritten(t: Tables, u: Tables, key: Key, novel: NovelId, newCode: string) {
    && u.links.Keys == t.links.Keys + {key}
    && (forall k :: k in t.links && k != key ==> u.links[k] == t.links[k])
    && (key in t.links ==> SameIdentity(t.links[key], u.links[key]))
    && (key !in t.links ==> u.links[key].novel == novel && u.links[key].redirectCode == newCode
                            && forall k :: k in t.links ==> t.links[k].redirectCode != newCode)
  }

  /** Exactly the unbound live Articles of the Novel are bound to the link. */
  predicate ArticlesBound(before: seq<Article>, after: seq<Article>, novel: NovelId, key: Key) {
    && |after| == |before|
    && forall i :: 0 <= i < |before| ==>
         after[i] == if before[i].novel == Some(novel) && !before[i].deleted && before[i].promoLink == None
                     then Article(before[i].id, before[i].novel, before[i].deleted, Some(key)) else before[i]
  }

  /** The fields a terminal write of a claim sets, and those it leaves alone. */
  predicate ClaimFields(before: Option<PromoLink>, row: PromoLink, w: ClaimWrite) {
    && (row.status == Fetched <==> w.Success?) && (row.status == RegisteredDisabled <==> w == CapabilityDisabled)
    && (row.status == Pending <==> w == ManualReview) && (row.status == ClaimFailed <==> w == Failure)
    && (w.Success? ==> row.upstreamCode == Some(w.code) && row.webUrl == w.webUrl && row.origin == w.origin)
    && (!w.Success? && before.Some? ==>
          row.upstreamCode == before.value.upstreamCode && row.webUrl == before.value.webUrl
          && row.origin == before.value.origin)
    && (!w.Success? && before.None? ==>
          row.upstreamCode == None && row.webUrl == None && row.origin == UpstreamExisting)
  }

  function RowOf(t: Tables, key: Key): Option<PromoLink> {
    if key in t.links then Some(t.links[key]) else None
  }

  /** The redirect code is free or not needed, and no Article of another Novel's link would have to be bound. */
  predicate ClaimCommits(t: Tables, key: Key, novel: NovelId, newCode: string, binds: bool) {
    && (key in t.links || forall k :: k in t.links ==> t.links[k].redirectCode != newCode)
    && (binds && key in t.links && t.links[key].novel != novel ==>
          forall a <- t.articles :: !(a.novel == Some(novel) && !a.deleted && a.promoLink == None))
  }

  /** A claim write commits exactly when its keys allow it, and then has written these fields and rows. */
  lemma ClaimInFull(t: Tables, key: Key, novel: NovelId, newCode: string, w: ClaimWrite)
    ensures ClaimTx(t, key, novel, newCode, w).Some? <==> ClaimCommits(t, key, novel, newCode, w.Success?)
    ensures ClaimTx(t, key, novel, newCode, w).Some? ==>
      var u := ClaimTx(t, key, novel, newCode, w).value;
      && OneRowWritten(t, u, key, novel, newCode) && ClaimFields(RowOf(t, key), u.links[key], w)
      && (w.Success? ==> ArticlesBound(t.articles, u.articles, novel, key))
      && (!w.Success? ==> u.articles == t.articles)
  {
  }

  /** A catalog capture is whole only for a complete promo of a linked source, and leaves the origin alone. */
  lemma CaptureInFull(t: Tables, key: Key, source: Option<NovelId>, linked: bool, code: string, url: string,
                      newCode: string)
    ensures code == "" || url == "" || source.None? || !linked ==>
      CaptureTx(t, key, source, linked, code, url, newCode) == Some(t)
    ensures code != "" && url != "" && source.Some? && linked ==>
      (CaptureTx(t, key, source, linked, code, url, newCode).Some?
       <==> ClaimCommits(t, key, source.value, newCode, true))
    ensures code != "" && url != "" && source.Some? && linked ==>
      var outcome := CaptureTx(t, key, source, linked, code, url, newCode);
      outcome.Some? ==>
        var u := outcome.value;
        && OneRowWritten(t, u, key, source.value, newCode) && ArticlesBound(t.articles, u.articles, source.value, key)
        && u.links[key].status == Fetched && u.links[key].upstreamCode == Some(code)
        && u.links[key].webUrl == Some(url)
        && u.links[key].origin == (if key in t.links then t.links[key].origin else UpstreamExisting)
  {
  }

  // ---------------------------------------------------------------------
  // What every run of claim writes, captures and article changes keeps
  // ---------------------------------------------------------------------

  predicate BindingOk(t: Tables, a: Article) {
    a.promoLink.Some? ==>
      && a.promoLink.value in t.links
      && a.novel == Some(t.links[a.promoLink.value].novel)
      && t.links[a.promoLink.value].everFetched
  }

  /** Redirect codes are unique; a bound Article points at a link of its own Novel that reached `fetched`. */
  predicate Consistent(t: Tables) {
    && DistinctIds(t.articles)
    && (forall j, k :: j in t.links && k in t.links && j != k ==> t.links[j].redirectCode != t.links[k].redirectCode)
    && (forall k :: k in t.links && t.links[k].status == Fetched ==> t.links[k].everFetched)
    && (forall i :: 0 <= i < |t.articles| ==> BindingOk(t, t.articles[i]))
  }

  predicate SameIdentity(row: PromoLink, later: PromoLink) {
    later.redirectCode == row.redirectCode && later.novel == row.novel
  }

  /** An Article keeps its identity; unless it was rebound, also its Novel and any binding it has. */
  predicate KeepsArticle(a: Article, b: Article, moved: set<ArticleId>) {
    && b.id == a.id
    && (a.id !in moved ==> b.novel == a.novel && (a.promoLink.Some? ==> b.promoLink == a.promoLink))
  }

  /** Links keep key, novel and redirect code; Articles keep their place, and all but the moved ones their binding. */
  predicate PreservesBut(t: Tables, u: Tables, moved: set<ArticleId>) {
    && (forall k :: k in t.links ==> k in u.links && SameIdentity(t.links[k], u.links[k]))
    && (forall k :: k in t.links && t.links[k].everFetched ==> k in u.links && u.links[k].everFetched)
    && |t.articles| <= |u.articles|
    && (forall i :: 0 <= i < |t.articles| ==> KeepsArticle(t.articles[i], u.articles[i], moved))
  }

  predicate Preserves(t: Tables, u: Tables) {
    PreservesBut(t, u, {})
  }

  lemma PreservesTrans(t: Tables, u: Tables, v: Tables, first: set<ArticleId>, second: set<ArticleId>)
    requires PreservesBut(t, u, first) && PreservesBut(u, v, second)
    ensures PreservesBut(t, v, first + second)
  {
    forall i | 0 <= i < |t.articles| ensures KeepsArticle(t.articles[i], v.articles[i], first + second) {
      assert KeepsArticle(t.articles[i], u.articles[i], first) && KeepsArticle(u.articles[i], v.articles[i], second);
    }
  }

  lemma EnsuredKeeps(t: Tables, key: Key, novel: NovelId, newCode: string, row: PromoLink)
    requires Consistent(t) && EnsureRow(t.links, key, novel, newCode).Some?
    requires var before := EnsureRow(t.links, key, novel, newCode).value[key];
             row.redirectCode == before.redirectCode && row.novel == before.novel
                 && (before.everFetched || row.status == Fetched ==> row.everFetched)
    ensures var u := t.(links := EnsureRow(t.links, key, novel, newCode).value[key := row]);
            Consistent(u) && Preserves(t, u)
  {
    assert EnsureRow(t.links, key, novel, newCode).value[key := row] == t.links[key := row];
  }

  lemma BindKeeps(t: Tables, novel: NovelId, key: Key)
    requires Consistent(t) && key in t.links && t.links[key].everFetched
    ensures Bind(t, novel, key).Some? ==> var u := Bind(t, novel, key).value; Consistent(u) && Preserves(t, u)
  {
    if !BindingAborts(t, novel, key) {
      var u := Bind(t, novel, key).value;
      forall i | 0 <= i < |u.articles| ensures BindingOk(u, u.articles[i]) {
        assert BindingOk(t, t.articles[i]);
        assert t.articles[i] in t.articles;
      }
    }
  }

  /** A link is written as fetched and its Novel's Articles are bound to it. */
  lemma FetchedKeeps(t: Tables, key: Key, novel: NovelId, newCode: string, row: PromoLink)
    requires Consistent(t) && EnsureRow(t.links, key, novel, newCode).Some? && row.everFetched
    requires SameIdentity(EnsureRow(t.links, key, novel, newCode).value[key], row)
    ensures var u := t.(links := EnsureRow(t.links, key, novel, newCode).value[key := row]);
            Bind(u, novel, key).Some? ==>
              Consistent(Bind(u, novel, key).value) && Preserves(t, Bind(u, novel, key).value)
  {
    var u := t.(links := EnsureRow(t.links, key, novel, newCode).value[key := row]);
    EnsuredKeeps(t, key, novel, newCode, row);
    BindKeeps(u, novel, key);
    if Bind(u, novel, key).Some? {
      PreservesTrans(t, u, Bind(u, novel, key).value, {}, {});
    }
  }

  lemma ClaimKeeps(t: Tables, key: Key, novel: NovelId, newCode: string, w: ClaimWrite)
    requires Consistent(t) && ClaimTx(t, key, novel, newCode, w).Some?
    ensures var u := ClaimTx(t, key, novel, newCode, w).value; Consistent(u) && Preserves(t, u)
  {
    var row := WriteLink(EnsureRow(t.links, key, novel, newCode).value[key], w);
    if w.Success? {
      FetchedKeeps(t, key, novel, newCode, row);
    } else {
      EnsuredKeeps(t, key, novel, newCode, row);
    }
  }

  lemma CaptureKeeps(t: Tables, key: Key, source: Option<NovelId>, linked: bool, code: string,
        url: string, newCode: string)
    requires Consistent(t) && CaptureTx(t, key, source, linked, code, url, newCode).Some?
    ensures var u := CaptureTx(t, key, source, linked, code, url, newCode).value; Consistent(u) && Preserves(t, u)
  {
    if code != "" && url != "" && source.Some? && linked {
      var row := CaptureRow(EnsureRow(t.links, key, source.value, newCode).value[key], code, url);
      FetchedKeeps(t, key, source.value, newCode, row);
    }
  }

  /** Articles deleted, added, or bound within one Novel. */
  lemma ArticlesKeep(t: Tables, u: Tables)
    requires Consistent(t) && u.links == t.links && |t.articles| <= |u.articles| && DistinctIds(u.articles)
    requires forall i :: 0 <= i < |t.articles| ==>
      u.articles[i] == t.articles[i] || u.articles[i] == t.articles[i].(deleted := true)
    requires forall i :: |t.articles| <= i < |u.articles| ==> BindingOk(t, u.articles[i])
    ensures Consistent(u) && Preserves(t, u)
  {
    forall i | 0 <= i < |u.articles| ensures BindingOk(u, u.articles[i]) {
      if i < |t.articles| { assert BindingOk(t, t.articles[i]); }
    }
  }

  lemma RebindKeeps(t: Tables, id: ArticleId, from: NovelId, to: NovelId, link: Option<Key>)
    requires Consistent(t) && MayRebind(t, id, from, to, link, true)
    ensures var u := t.(articles := RebindRows(t.articles, id, from, to, link));
            Consistent(u) && PreservesBut(t, u, {id})
  {
    var u := t.(articles := RebindRows(t.articles, id, from, to, link));
    forall i | 0 <= i < |u.articles| ensures BindingOk(u, u.articles[i]) { assert BindingOk(t, t.articles[i]); }
  }

  /** The Articles a run rebinds, or tries to. */
  function Rebound(events: seq<Event>): set<ArticleId> {
    set e <- events | e.Rebind? :: e.id
  }

  function Moved(e: Event): set<ArticleId> {
    if e.Rebind? then {e.id} else {}
  }

  lemma ApplyKeeps(t: Tables, e: Event)
    requires Consistent(t)
    ensures Consistent(Apply(t, e)) && PreservesBut(t, Apply(t, e), Moved(e))
  {
    match e
    case Claim(key, novel, newCode, w) =>
      if ClaimTx(t, key, novel, newCode, w).Some? { ClaimKeeps(t, key, novel, newCode, w); }
    case Capture(key, source, linked, code, url, newCode) =>
      if CaptureTx(t, key, source, linked, code, url, newCode).Some? {
        CaptureKeeps(t, key, source, linked, code, url, newCode);
      }
    case Reconcile(key, novel) =>
      if key in t.links && t.links[key].status == Fetched { BindKeeps(t, novel, key); }
    case CreateArticle(_, _, _) => ArticlesKeep(t, Apply(t, e));
    case DeleteArticle(_) => ArticlesKeep(t, Apply(t, e));
    case Rebind(id, from, to, link, allowed) =>
      if MayRebind(t, id, from, to, link, allowed) { RebindKeeps(t, id, from, to, link); }
  }

  /**
   Over any sequence of whole claim writes, catalog captures, reconciliations and Article
   creations, deletions and rebinds: a PromoLink key keeps its redirect code, redirect codes
   stay unique, an Article once bound keeps its PromoLink unless a rebind names it, and every
   binding stays within one Novel and points at a link that was fetched.
   */
  lemma {:induction false} RunsPreserveBindings(t: Tables, events: seq<Event>)
    requires Consistent(t)
    ensures Consistent(ApplyAll(t, events)) && PreservesBut(t, ApplyAll(t, events), Rebound(events))
    decreases |events|
  {
    if events != [] {
      ApplyKeeps(t, events[0]);
      RunsPreserveBindings(Apply(t, events[0]), events[1..]);
      PreservesTrans(t, Apply(t, events[0]), ApplyAll(t, events), Moved(events[0]), Rebound(events[1..]));
      ReboundCons(events);
    }
  }

  lemma ReboundCons(events: seq<Event>)
    requires events != []
    ensures Moved(events[0]) + Rebound(events[1..]) == Rebound(events)
  {
    assert events == [events[0]] + events[1..];
  }

  /** A bound Article's binding changes exactly when a rebind that is let through gives it another link. */
  lemma BindingChangesIff(t: Tables, e: Event, i: nat)
    requires Consistent(t) && i < |t.articles| && t.articles[i].promoLink.Some?
    ensures |t.articles| <= |Apply(t, e).articles|
    ensures Apply(t, e).articles[i].promoLink != t.articles[i].promoLink <==>
              && e.Rebind? && MayRebind(t, e.id, e.from, e.to, e.link, e.allowed)
              && RebindsRow(t.articles[i], e.id, e.from)
  {
    ApplyKeeps(t, e);
    assert KeepsArticle(t.articles[i], Apply(t, e).articles[i], Moved(e));
    assert BindingOk(t, t.articles[i]);
  }

  // ---------------------------------------------------------------------
  // The handlers' own form: rows updated in place, statement by statement
  // ---------------------------------------------------------------------

  /** Exactly the live row of that Article on its old Novel moves, with its two fields. */
  predicate RebindLeaves(before: Article, after: Article, id: ArticleId, from: NovelId, to: NovelId,
                         link: Option<Key>)
  {
    after == if before.id == id && before.novel == Some(from) && !before.deleted
             then Article(id, Some(to), false, link) else before
  }

  class PromoStore {
    var links: map<Key, PromoLink>
    var articles: seq<Article>

    function Contents(): Tables
      reads this
    {
      Tables(links, articles)
    }

    constructor ()
      ensures Contents() == Tables(map[], [])
    {
      links, articles := map[], [];
    }

    method EnsurePromoLinkRow(key: Key, novel: NovelId, newCode: string) returns (ok: bool)
      modifies `links
      ensures ok == EnsureRow(old(links), key, novel, newCode).Some?
      ensures links == if ok then EnsureRow(old(links), key, novel, newCode).value else old(links)
      ensures ok <==> key in old(links) || forall k :: k in old(links) ==> old(links)[k].redirectCode != newCode
      ensures ok ==> key in links && OneRowWritten(Tables(old(links), articles), Contents(), key, novel, newCode)
      ensures ok ==> forall k :: k in old(links) ==> links[k] == old(links)[k]
    {
      if key in links {
        return true;
      }
      if exists k :: k in links && links[k].redirectCode == newCode {
        return false;
      }
      links := links[key := PromoLink(novel, newCode, UpstreamExisting, Pending, None, None, false)];
      ok := true;
    }

    /** On success the three lists and the rows are what binding means; otherwise the caller rolls back. */
    method BindPromoLinkToArticles(novel: NovelId, key: Key) returns (ok: bool, r: BindingResult)
      requires key in links
      modifies `articles
      ensures ok == !BindingAborts(old(Contents()), novel, key)
      ensures ok ==> articles == BindRows(old(articles), novel, key) && r == Lists(old(articles), novel, key)
    {
      ghost var before := articles;
      r := BindingResult([], [], []);
      for i := 0 to |articles|
        invariant |articles| == |before|
        invariant forall j :: 0 <= j < i ==> articles[j] == BindRow(before[j], novel, key)
        invariant forall j :: i <= j < |before| ==> articles[j] == before[j]
        invariant r == Lists(before[..i], novel, key)
        invariant links[key].novel != novel ==>
          forall j :: 0 <= j < i ==> !(Live(before[j], novel) && Classify(before[j], key) == Bound)
      {
        var article := articles[i];
        assert article == before[i];
        assert before[..i + 1][..i] == before[..i];
        if article.novel == Some(novel) && !article.deleted {
          if article.promoLink == Some(key) {
            r := r.(alreadyBound := r.alreadyBound + [article.id]);
          } else if article.promoLink != None {
            r := r.(conflicted := r.conflicted + [article.id]);
          } else {
            if links[key].novel != novel {
              assert before[i] in before;
              return false, r;
            }
            articles := articles[i := article.(promoLink := Some(key))];
            r := r.(bound := r.bound + [article.id]);
          }
        }
      }
      assert before[..|before|] == before && articles == BindRows(before, novel, key);
      ok := true;
    }

    /** One terminal write of the claim handler, in its transaction. */
    method WriteClaim(key: Key, novel: NovelId, newCode: string, w: ClaimWrite)
      returns (committed: bool, r: BindingResult)
      modifies this
      ensures Contents() == Apply(old(Contents()), Claim(key, novel, newCode, w))
      ensures committed <==> ClaimCommits(old(Contents()), key, novel, newCode, w.Success?)
      ensures committed ==>
        key in links && OneRowWritten(old(Contents()), Contents(), key, novel, newCode)
        && ClaimFields(RowOf(old(Contents()), key), links[key], w)
      ensures committed && w.Success? ==> ArticlesBound(old(articles), articles, novel, key)
      ensures !committed || !w.Success? ==> articles == old(articles)
      ensures !committed ==> links == old(links)
      ensures committed && w.Success? ==> r == Lists(old(articles), novel, key)
    {
      ClaimInFull(Contents(), key, novel, newCode, w);
      var saved := links;
      var savedArticles := articles;
      r := BindingResult([], [], []);
      committed := EnsurePromoLinkRow(key, novel, newCode);
      if committed {
        var row := links[key];
        match w {
          case CapabilityDisabled => row := row.(status := RegisteredDisabled);
          case ManualReview => row := row.(status := Pending);
          case Failure => row := row.(status := ClaimFailed);
          case Success(origin, code, webUrl) =>
            row := row.(status := Fetched, origin := origin, upstreamCode := Some(code), webUrl := webUrl,
                everFetched := true);
        }
        links := links[key := row];
        if w.Success? {
          committed, r := BindPromoLinkToArticles(novel, key);
        }
      }
      if !committed {
        links, articles := saved, savedArticles;
      }
    }

    /** `persistExistingCatalogPromo`. */
    method PersistExistingCatalogPromo(key: Key, source: Option<NovelId>, linked: bool, code: string,
        url: string, newCode: string)
      returns (committed: bool, r: BindingResult)
      modifies this
      ensures Contents() == Apply(old(Contents()), Capture(key, source, linked, code, url, newCode))
      ensures committed == CaptureTx(old(Contents()), key, source, linked, code, url, newCode).Some?
      ensures committed && code != "" && url != "" && source.Some? && linked ==>
        && key in links && OneRowWritten(old(Contents()), Contents(), key, source.value, newCode)
        && links[key].upstreamCode == Some(code) && links[key].webUrl == Some(url) && links[key].status == Fetched
        && ArticlesBound(old(articles), articles, source.value, key)
      ensures !committed || code == "" || url == "" || source.None? || !linked ==> Contents() == old(Contents())
    {
      CaptureInFull(Contents(), key, source, linked, code, url, newCode);
      r := BindingResult([], [], []);
      if (code == "" && url == "") || code == "" || url == "" {
        return true, r;
      }
      if source == None || !linked {
        return true, r;
      }
      var saved := links;
      var savedArticles := articles;
      committed := EnsurePromoLinkRow(key, source.value, newCode);
      if committed {
        var row := links[key];
        links := links[key := row.(status := Fetched, upstreamCode := Some(code), webUrl := Some(url),
            everFetched := true)];
        committed, r := BindPromoLinkToArticles(source.value, key);
      }
      if !committed {
        links, articles := saved, savedArticles;
      }
    }

    /** `runRebindTransactionalWrite`: the guards on the row as it is now, then one two-field write. */
    method RebindArticle(id: ArticleId, from: NovelId, to: NovelId, link: Option<Key>, allowed: bool)
      returns (committed: bool)
      modifies `articles
      ensures Contents() == Apply(old(Contents()), Rebind(id, from, to, link, allowed))
      ensures committed <==>
        && allowed && to != from
        && (link.Some? ==> link.value in links && links[link.value].novel == to && links[link.value].status == Fetched)
        && exists a <- old(articles) :: a.id == id && a.novel == Some(from) && !a.deleted
      ensures !committed ==> articles == old(articles)
      ensures committed ==> |articles| == |old(articles)| && forall i :: 0 <= i < |articles| ==> RebindLeaves(
        old(articles)[i], articles[i], id, from, to, link)
    {
      if !allowed || to == from {
        return false;
      }
      if link.Some? && (link.value !in links || links[link.value].novel != to || links[link.value].status != Fetched) {
        return false;
      }
      committed := false;
      ghost var before := articles;
      for i := 0 to |articles|
        invariant |articles| == |before|
        invariant forall j :: i <= j < |before| ==> articles[j] == before[j]
        invariant forall j :: 0 <= j < i ==> articles[j] == RebindRows(before, id, from, to, link)[j]
        invariant committed <==> exists j :: 0 <= j < i && RebindsRow(before[j], id, from)
      {
        if RebindsRow(articles[i], id, from) {
          articles := articles[i := articles[i].(novel := Some(to), promoLink := link)];
          committed := true;
        }
      }
      assert articles == RebindRows(before, id, from, to, link);
      assert committed <==> exists a <- before :: RebindsRow(a, id, from);
    }

    /** `reconcileAlreadyFetchedBinding`, reached only for a loaded link that is `fetched`. */
    method ReconcileAlreadyFetchedBinding(key: Key, novel: NovelId) returns (committed: bool, r: BindingResult)
      requires key in links && links[key].status == Fetched
      modifies this
      ensures Contents() == Apply(old(Contents()), Reconcile(key, novel))
      ensures committed ==> r == Lists(old(articles), novel, key)
    {
      var saved := articles;
      committed, r := BindPromoLinkToArticles(novel, key);
      if !committed {
        articles := saved;
      }
    }
  }
}
