/**
 Overlapping binding transactions (worker/handlers/promo-link-binding.ts).  A binding reads
 the Novel's live Articles and then updates the unbound ones by id alone, under READ
 COMMITTED: between its read and its commit another transaction can bind the same Article.
 Row locks are held to the end, so a transaction's updates take effect together when it
 commits.  `novelOf` gives the Novel of a link, which never changes.
 */
module PromoBindingRaces {
  import opened PromoBinding
  import opened Wrappers

  type Tx = nat

  /** An open binding transaction: its link and the Articles it read as unbound. */
  datatype Binder = Binder(key: Key, plan: set<ArticleId>)

  datatype State = State(articles: seq<Article>, open: map<Tx, Binder>)

  datatype Action =
    | Read(x: Tx, novel: NovelId, key: Key)
    | Commit(x: Tx)
    | Abort(x: Tx)
    | Create(id: ArticleId, owner: Option<NovelId>, link: Option<Key>)
    | Delete(id: ArticleId)
    | Move(id: ArticleId, from: NovelId, to: NovelId, link: Option<Key>)   // a rebind let through by its guards

  predicate HasId(rows: seq<Article>, id: ArticleId) {
    exists a <- rows :: a.id == id
  }

  predicate FitsNovel(link: Option<Key>, novel: Option<NovelId>, novelOf: Key -> NovelId) {
    link.Some? ==> novel == Some(novelOf(link.value))
  }

  predicate Enabled(s: State, a: Action, novelOf: Key -> NovelId) {
    match a
    case Read(x, _, _) => x !in s.open
    case Commit(x) => x in s.open
    case Abort(x) => x in s.open
    case Create(id, owner, link) => !HasId(s.articles, id) && FitsNovel(link, owner, novelOf)
    case Delete(_) => true
    case Move(_, from, to, link) => from != to && FitsNovel(link, Some(to), novelOf)
  }

  /** Live rows of the Novel that carry no link. */
  function Unbound(rows: seq<Article>, novel: NovelId): set<ArticleId> {
    set a <- rows | Live(a, novel) && a.promoLink.None? :: a.id
  }

  /** The composite foreign key lets every update of the plan through. */
  predicate Writes(s: State, p: Binder, novelOf: Key -> NovelId) {
    forall i :: 0 <= i < |s.articles| && s.articles[i].id in p.plan ==> s.articles[i].novel == Some(novelOf(p.key))
  }

  function Planned(rows: seq<Article>, p: Binder): seq<Article> {
    seq(|rows|, i requires 0 <= i < |rows| =>
      if rows[i].id in p.plan then rows[i].(promoLink := Some(p.key)) else rows[i])
  }

  function Deleted(rows: seq<Article>, id: ArticleId): seq<Article> {
    seq(|rows|, i requires 0 <= i < |rows| => if rows[i].id == id then rows[i].(deleted := true) else rows[i])
  }

  function Next(s: State, a: Action, novelOf: Key -> NovelId): State
    requires Enabled(s, a, novelOf)
  {
    match a
    case Read(x, novel, key) => s.(open := s.open[x := Binder(key, Unbound(s.articles, novel))])
    case Commit(x) =>
      State(if Writes(s, s.open[x], novelOf) then Planned(s.articles, s.open[x]) else s.articles, s.open - {x})
    case Abort(x) => s.(open := s.open - {x})
    case Create(id, owner, link) => s.(articles := s.articles + [Article(id, owner, false, link)])
    case Delete(id) => s.(articles := Deleted(s.articles, id))
    case Move(id, from, to, link) => s.(articles := RebindRows(s.articles, id, from, to, link))
  }

  predicate CanRun(s: State, actions: seq<Action>, novelOf: Key -> NovelId)
    decreases |actions|
  {
    actions == [] ||
    (Enabled(s, actions[0], novelOf) && CanRun(Next(s, actions[0], novelOf), actions[1..], novelOf))
  }

  function Run(s: State, actions: seq<Action>, novelOf: Key -> NovelId): State
    requires CanRun(s, actions, novelOf)
    decreases |actions|
  {
    if actions == [] then s else Run(Next(s, actions[0], novelOf), actions[1..], novelOf)
  }

  /** With nothing in between, a read and its commit are the whole binding transaction. */
  lemma UndisturbedBindIsWhole(t: Tables, x: Tx, novel: NovelId, key: Key, novelOf: Key -> NovelId)
    requires DistinctIds(t.articles) && key in t.links && novelOf(key) == t.links[key].novel
    ensures var s := Next(State(t.articles, map[]), Read(x, novel, key), novelOf);
            Next(s, Commit(x), novelOf).articles ==
              if BindingAborts(t, novel, key) then t.articles else BindRows(t.articles, novel, key)
  {
    var s := Next(State(t.articles, map[]), Read(x, novel, key), novelOf);
    var p := s.open[x];
    forall i | 0 <= i < |t.articles|
      ensures t.articles[i].id in p.plan <==> Live(t.articles[i], novel) && Classify(t.articles[i], key) == Bound
    {
      if t.articles[i].id in p.plan {
        var j :| 0 <= j < |t.articles| && t.articles[j].id == t.articles[i].id && Live(t.articles[j], novel)
                 && t.articles[j].promoLink.None?;
        assert i == j;
      }
      assert t.articles[i] in t.articles;
    }
    if BindingAborts(t, novel, key) {
      var a :| a in t.articles && Live(a, novel) && Classify(a, key) == Bound;
      var i :| 0 <= i < |t.articles| && t.articles[i] == a;
    } else {
      assert Writes(s, p, novelOf);
      assert Planned(t.articles, p) == BindRows(t.articles, novel, key);
    }
  }

  // ---------------------------------------------------------------------
  // Which step changes a binding
  // ---------------------------------------------------------------------

  /** The open transaction will give row `i` another link when it commits. */
  predicate Overwrites(s: State, x: Tx, i: nat, novelOf: Key -> NovelId)
    requires i < |s.articles|
  {
    && x in s.open && s.articles[i].id in s.open[x].plan && s.articles[i].promoLink != Some(s.open[x].key)
    && Writes(s, s.open[x], novelOf)
  }

  /** A committed binding changes only by a rebind, or by a commit whose read came before it. */
  lemma StepChangesBindingIff(s: State, a: Action, i: nat, novelOf: Key -> NovelId)
    requires Enabled(s, a, novelOf) && i < |s.articles| && s.articles[i].promoLink.Some?
    requires FitsNovel(s.articles[i].promoLink, s.articles[i].novel, novelOf)
    ensures |s.articles| <= |Next(s, a, novelOf).articles|
    ensures Next(s, a, novelOf).articles[i].promoLink != s.articles[i].promoLink <==>
              || (a.Commit? && Overwrites(s, a.x, i, novelOf))
              || (a.Move? && RebindsRow(s.articles[i], a.id, a.from))
  {}

  // ---------------------------------------------------------------------
  // When a binding can be lost
  // ---------------------------------------------------------------------

  ghost predicate PlansExist(s: State) {
    forall x, id :: x in s.open && id in s.open[x].plan ==> HasId(s.articles, id)
  }

  predicate NoMoves(actions: seq<Action>) {
    forall a <- actions :: !a.Move?
  }

  ghost predicate CanLose(s: State, i: nat, novelOf: Key -> NovelId)
    requires i < |s.articles|
  {
    exists actions :: CanRun(s, actions, novelOf) && NoMoves(actions)
                      && |s.articles| <= |Run(s, actions, novelOf).articles|
                      && Run(s, actions, novelOf).articles[i].promoLink != s.articles[i].promoLink
  }

  /** Row `i` keeps its binding, and no open transaction will overwrite it. */
  ghost predicate SafelyBound(s: State, i: nat, link: Key, novelOf: Key -> NovelId) {
    && i < |s.articles| && s.articles[i].promoLink == Some(link) && PlansExist(s)
    && forall x :: !Overwrites(s, x, i, novelOf)
  }

  /** Without a rebind rows keep id and Novel, and nobody takes the id of an existing row. */
  lemma RowsKeep(s: State, a: Action, novelOf: Key -> NovelId)
    requires Enabled(s, a, novelOf) && !a.Move? && PlansExist(s)
    ensures var t := Next(s, a, novelOf);
            && |s.articles| <= |t.articles|
            && (forall i :: 0 <= i < |s.articles| ==>
                  t.articles[i].id == s.articles[i].id && t.articles[i].novel == s.articles[i].novel)
            && (forall i :: |s.articles| <= i < |t.articles| ==> !HasId(s.articles, t.articles[i].id))
  {}

  lemma PlansStillExist(s: State, a: Action, novelOf: Key -> NovelId)
    requires Enabled(s, a, novelOf) && !a.Move? && PlansExist(s)
    ensures PlansExist(Next(s, a, novelOf))
  {
    var t := Next(s, a, novelOf);
    RowsKeep(s, a, novelOf);
    forall x, id | x in t.open && id in t.open[x].plan ensures HasId(t.articles, id) {
      assert HasId(s.articles, id);
      var i :| 0 <= i < |s.articles| && s.articles[i].id == id;
      assert t.articles[i] in t.articles;
    }
  }

  lemma WritesKeep(s: State, a: Action, x: Tx, novelOf: Key -> NovelId)
    requires Enabled(s, a, novelOf) && !a.Move? && PlansExist(s) && x in s.open
    ensures Writes(Next(s, a, novelOf), s.open[x], novelOf) <==> Writes(s, s.open[x], novelOf)
  {
    var t := Next(s, a, novelOf);
    RowsKeep(s, a, novelOf);
    forall i | 0 <= i < |t.articles| && t.articles[i].id in s.open[x].plan ensures i < |s.articles| {
      assert HasId(s.articles, t.articles[i].id);
    }
  }

  lemma BoundIsNotPlanned(rows: seq<Article>, i: nat, novel: NovelId)
    requires DistinctIds(rows) && i < |rows| && rows[i].promoLink.Some?
    ensures rows[i].id !in Unbound(rows, novel)
  {}

  lemma SafelyBoundStep(s: State, a: Action, i: nat, link: Key, novelOf: Key -> NovelId)
    requires SafelyBound(s, i, link, novelOf) && DistinctIds(s.articles) && Enabled(s, a, novelOf) && !a.Move?
    ensures SafelyBound(Next(s, a, novelOf), i, link, novelOf)
  {
    var t := Next(s, a, novelOf);
    RowsKeep(s, a, novelOf);
    PlansStillExist(s, a, novelOf);
    if a.Commit? { assert !Overwrites(s, a.x, i, novelOf); }
    assert t.articles[i].promoLink == s.articles[i].promoLink;
    forall x ensures !Overwrites(t, x, i, novelOf) {
      assert !Overwrites(s, x, i, novelOf);
      if a.Read? { BoundIsNotPlanned(s.articles, i, a.novel); }
      if x in s.open { WritesKeep(s, a, x, novelOf); }
    }
  }

  lemma StaysDistinct(s: State, a: Action, novelOf: Key -> NovelId)
    requires DistinctIds(s.articles) && Enabled(s, a, novelOf)
    ensures DistinctIds(Next(s, a, novelOf).articles)
  {}

  lemma {:induction false} SafelyBoundForever(s: State, actions: seq<Action>, i: nat, link: Key,
        novelOf: Key -> NovelId)
    requires SafelyBound(s, i, link, novelOf) && DistinctIds(s.articles)
    requires CanRun(s, actions, novelOf) && NoMoves(actions)
    ensures SafelyBound(Run(s, actions, novelOf), i, link, novelOf)
    decreases |actions|
  {
    if actions != [] {
      SafelyBoundStep(s, actions[0], i, link, novelOf);
      StaysDistinct(s, actions[0], novelOf);
      SafelyBoundForever(Next(s, actions[0], novelOf), actions[1..], i, link, novelOf);
    }
  }

  /**
   Without a rebind, a committed binding can still change exactly when some open transaction
   of another link read the Article before it was bound and its foreign keys still fit.
   */
  lemma BindingLostIff(s: State, i: nat, novelOf: Key -> NovelId)
    requires DistinctIds(s.articles) && PlansExist(s) && i < |s.articles| && s.articles[i].promoLink.Some?
    ensures CanLose(s, i, novelOf) <==> exists x :: Overwrites(s, x, i, novelOf)
  {
    if x :| Overwrites(s, x, i, novelOf) {
      assert [Commit(x)][1..] == [];
      assert CanRun(s, [Commit(x)], novelOf) && NoMoves([Commit(x)]);
      assert Run(s, [Commit(x)], novelOf) == Next(s, Commit(x), novelOf);
    } else {
      forall actions | CanRun(s, actions, novelOf) && NoMoves(actions)
        ensures SafelyBound(Run(s, actions, novelOf), i, s.articles[i].promoLink.value, novelOf)
      {
        SafelyBoundForever(s, actions, i, s.articles[i].promoLink.value, novelOf);
      }
    }
  }

  /** Two links of one Novel read its Article while it is unbound: the one that commits last has it. */
  lemma SecondCommitWins(id: ArticleId, novel: NovelId, j: Key, k: Key, novelOf: Key -> NovelId)
    requires j != k && novelOf(j) == novel && novelOf(k) == novel
    ensures var s := State([Article(id, Some(novel), false, None)], map[]);
            var read := Next(Next(s, Read(0, novel, j), novelOf), Read(1, novel, k), novelOf);
            var first := Next(read, Commit(0), novelOf);
            && first.articles[0].promoLink == Some(j)
            && Next(first, Commit(1), novelOf).articles[0].promoLink == Some(k)
  {
    var s := State([Article(id, Some(novel), false, None)], map[]);
    assert s.articles[0] in s.articles;
    assert id in Unbound(s.articles, novel);
  }
}
