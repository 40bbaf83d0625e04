/**
 The list options and the page iterator of cordium-go/list.go. The List method
 behind it is a function from the request to the reply, for a list that does not
 change while it is walked.
 */
module Paginator {
  import opened Prelude

  type UInt32 = x: int | 0 <= x < 0x1_0000_0000

  // ---- List options ------------------------------------------------------

  datatype Config = Config(page: UInt32, itemsPerPage: UInt32, orderByType: nat, orderByMode: nat,
                           space: Option<string>, template: Option<string>, workspace: Option<string>,
                           spaceType: nat, spaceMode: nat)

  const UNSET: Config := Config(0, 0, 0, 0, None, None, None, 0, 0)

  datatype ListOption =
    | NilOption
    | WithPage(page: UInt32)
    | WithItemsPerPage(count: UInt32)
    | OrderBy(order: nat)
    | Direction(mode: nat)
    | InSpace(name: string)
    | OfTemplate(name: string)
    | OfWorkspace(name: string)
    | OfSpaceType(spaceType: nat)
    | OfSpaceMode(spaceMode: nat)

  predicate Accepts(o: ListOption) {
    o.InSpace? || o.OfTemplate? || o.OfWorkspace? ==> o.name != ""
  }

  function Set(c: Config, o: ListOption): Config {
    match o
    case NilOption => c
    case WithPage(page) => c.(page := page)
    case WithItemsPerPage(count) => c.(itemsPerPage := count)
    case OrderBy(order) => c.(orderByType := order)
    case Direction(mode) => c.(orderByMode := mode)
    case InSpace(name) => c.(space := Some(name))
    case OfTemplate(name) => c.(template := Some(name))
    case OfWorkspace(name) => c.(workspace := Some(name))
    case OfSpaceType(t) => c.(spaceType := t)
    case OfSpaceMode(m) => c.(spaceMode := m)
  }

  function SetAll(c: Config, opts: seq<ListOption>): Config
    decreases |opts|
  {
    if opts == [] then c else SetAll(Set(c, opts[0]), opts[1..])
  }

  predicate AllAccepted(opts: seq<ListOption>) {
    forall i :: 0 <= i < |opts| ==> Accepts(opts[i])
  }

  /** The configuration of a list request, or None when an option is refused. */
  function ConfigOf(opts: seq<ListOption>): Option<Config> {
    if AllAccepted(opts) then Some(SetAll(UNSET, opts)) else None
  }

  class ListConfig {
    var page: UInt32
    var itemsPerPage: UInt32
    var orderByType: nat
    var orderByMode: nat
    var space: Option<string>
    var template: Option<string>
    var workspace: Option<string>
    var spaceType: nat
    var spaceMode: nat

    function Contents(): Config
      reads this
    {
      Config(page, itemsPerPage, orderByType, orderByMode, space, template, workspace, spaceType, spaceMode)
    }

    constructor ()
      ensures Contents() == UNSET
    {
      page, itemsPerPage, orderByType, orderByMode := 0, 0, 0, 0;
      space, template, workspace, spaceType, spaceMode := None, None, None, 0, 0;
    }

    method Apply(o: ListOption) returns (ok: bool)
      modifies this
      ensures ok == Accepts(o)
      ensures Contents() == if ok then Set(old(Contents()), o) else old(Contents())
    {
      if (o.InSpace? || o.OfTemplate? || o.OfWorkspace?) && o.name == "" {
        return false;
      }
      match o {
        case NilOption =>
        case WithPage(n) => page := n;
        case WithItemsPerPage(n) => itemsPerPage := n;
        case OrderBy(order) => orderByType := order;
        case Direction(mode) => orderByMode := mode;
        case InSpace(name) => space := Some(name);
        case OfTemplate(name) => template := Some(name);
        case OfWorkspace(name) => workspace := Some(name);
        case OfSpaceType(t) => spaceType := t;
        case OfSpaceMode(m) => spaceMode := m;
      }
      ok := true;
    }
  }

  method NewListConfig(opts: seq<ListOption>) returns (r: Option<Config>)
    ensures r == ConfigOf(opts)
  {
    var c := new ListConfig();
    for i := 0 to |opts|
      invariant AllAccepted(opts[..i])
      invariant SetAll(c.Contents(), opts[i..]) == SetAll(UNSET, opts)
    {
      assert opts[i..][1..] == opts[i + 1..];
      var ok := c.Apply(opts[i]);
      if !ok {
        return None;
      }
    }
    assert opts[..|opts|] == opts;
    r := Some(c.Contents());
  }

  // ---- Last writes -------------------------------------------------------

  /** What the last option of a kind says, or the value for none. */
  function LastOr<T>(opts: seq<ListOption>, p: ListOption -> bool, get: ListOption -> T, none: T): T {
    match LastIndex(opts, p)
    case None => none
    case Some(i) => get(opts[i])
  }

  predicate LastWritesOfNumbers(c: Config, opts: seq<ListOption>) {
    && c.page == LastOr(opts, (o: ListOption) => o.WithPage?, (o: ListOption) => if o.WithPage? then o.page else 0, 0)
    && c.itemsPerPage == LastOr(opts, (o: ListOption) => o.WithItemsPerPage?,
                                (o: ListOption) => if o.WithItemsPerPage? then o.count else 0, 0)
    && c.orderByType == LastOr(opts, (o: ListOption) => o.OrderBy?, (o: ListOption) => if o.OrderBy? then o.order else 0, 0)
    && c.orderByMode == LastOr(opts, (o: ListOption) => o.Direction?, (o: ListOption) => if o.Direction? then o.mode else 0, 0)
    && c.spaceType == LastOr(opts, (o: ListOption) => o.OfSpaceType?,
                             (o: ListOption) => if o.OfSpaceType? then o.spaceType else 0, 0)
    && c.spaceMode == LastOr(opts, (o: ListOption) => o.OfSpaceMode?,
                             (o: ListOption) => if o.OfSpaceMode? then o.spaceMode else 0, 0)
  }

  predicate LastWritesOfNames(c: Config, opts: seq<ListOption>) {
    && c.space == LastOr(opts, (o: ListOption) => o.InSpace?, (o: ListOption) => if o.InSpace? then Some(o.name) else None, None)
    && c.template == LastOr(opts, (o: ListOption) => o.OfTemplate?,
                            (o: ListOption) => if o.OfTemplate? then Some(o.name) else None, None)
    && c.workspace == LastOr(opts, (o: ListOption) => o.OfWorkspace?,
                             (o: ListOption) => if o.OfWorkspace? then Some(o.name) else None, None)
  }

  lemma {:induction false} SetAllSnoc(c: Config, opts: seq<ListOption>, o: ListOption)
    ensures SetAll(c, opts + [o]) == Set(SetAll(c, opts), o)
  {
    SetAllAppend(c, opts, [o]);
    assert [o][1..] == [];
    assert SetAll(SetAll(c, opts), [o]) == SetAll(Set(SetAll(c, opts), o), []);
  }

  lemma {:induction false} LastOrSnoc<T>(opts: seq<ListOption>, o: ListOption, p: ListOption -> bool,
                                         get: ListOption -> T, none: T)
    ensures LastOr(opts + [o], p, get, none) == if p(o) then get(o) else LastOr(opts, p, get, none)
  {
    assert (opts + [o])[..|opts|] == opts;
  }

  lemma {:induction false} NumbersNext(c: Config, opts: seq<ListOption>, o: ListOption)
    requires LastWritesOfNumbers(c, opts)
    ensures LastWritesOfNumbers(Set(c, o), opts + [o])
  {
    assert (opts + [o])[..|opts|] == opts;
  }

  lemma {:induction false} NamesNext(c: Config, opts: seq<ListOption>, o: ListOption)
    requires LastWritesOfNames(c, opts)
    ensures LastWritesOfNames(Set(c, o), opts + [o])
  {
    assert (opts + [o])[..|opts|] == opts;
  }

  /** Every field holds what the last option of its kind says, and is unset without one. */
  lemma {:induction false} LastOptionWins(opts: seq<ListOption>)
    ensures LastWritesOfNumbers(SetAll(UNSET, opts), opts) && LastWritesOfNames(SetAll(UNSET, opts), opts)
    ensures ConfigOf(opts).Some? <==>
      forall i :: 0 <= i < |opts| && (opts[i].InSpace? || opts[i].OfTemplate? || opts[i].OfWorkspace?) ==> opts[i].name != ""
    ensures ConfigOf(opts).Some? ==> ConfigOf(opts).value == SetAll(UNSET, opts)
  {
    if opts != [] {
      var front, o := opts[..|opts| - 1], opts[|opts| - 1];
      assert opts == front + [o];
      LastOptionWins(front);
      SetAllSnoc(UNSET, front, o);
      NumbersNext(SetAll(UNSET, front), front, o);
      NamesNext(SetAll(UNSET, front), front, o);
    }
  }

  // ---- The options of a page ---------------------------------------------

  const DEFAULT_PAGE_SIZE: UInt32 := 100

  /** The default size first, then the caller's options, then the iterator's own page number. */
  function PageOptions(opts: seq<ListOption>, page: UInt32): seq<ListOption> {
    [WithItemsPerPage(DEFAULT_PAGE_SIZE)] + opts + [WithPage(page)]
  }

  lemma {:induction false} SetAllAppend(c: Config, a: seq<ListOption>, b: seq<ListOption>)
    ensures SetAll(c, a + b) == SetAll(SetAll(c, a), b)
    decreases |a|
  {
    if a == [] {
      assert a + b == b;
    } else {
      assert (a + b)[1..] == a[1..] + b;
      SetAllAppend(Set(c, a[0]), a[1..], b);
    }
  }

  predicate SetsSize(opts: seq<ListOption>) {
    exists i :: 0 <= i < |opts| && opts[i].WithItemsPerPage?
  }

  /** The size that a config starts with shows only when no option sets another, and nowhere else. */
  lemma {:induction false} SizeIsIndependent(c: Config, d: Config, opts: seq<ListOption>)
    requires d == c.(itemsPerPage := d.itemsPerPage)
    ensures var x, y := SetAll(c, opts), SetAll(d, opts);
            y == x.(itemsPerPage := if SetsSize(opts) then x.itemsPerPage else d.itemsPerPage)
    ensures !SetsSize(opts) ==> SetAll(c, opts).itemsPerPage == c.itemsPerPage
    decreases |opts|
  {
    if opts != [] {
      var o, rest := opts[0], opts[1..];
      SizeIsIndependent(Set(c, o), Set(d, o), rest);
      assert SetsSize(rest) ==> SetsSize(opts) by {
        if i :| 0 <= i < |rest| && rest[i].WithItemsPerPage? {
          assert opts[i + 1].WithItemsPerPage?;
        }
      }
      assert SetsSize(opts) ==> o.WithItemsPerPage? || SetsSize(rest) by {
        if i :| 0 <= i < |opts| && opts[i].WithItemsPerPage? {
          assert i > 0 ==> rest[i - 1].WithItemsPerPage?;
        }
      }
    }
  }

  /**
   Every page request is the caller's own, apart from its page number, which the
   caller cannot set, and the page size, which is 100 unless the caller sets it.
   */
  lemma {:induction false} PageRequest(opts: seq<ListOption>, page: UInt32)
    ensures ConfigOf(PageOptions(opts, page)) ==
      match ConfigOf(opts)
      case None => None
      case Some(c) => Some(c.(page := page, itemsPerPage := if SetsSize(opts) then c.itemsPerPage else 100))
  {
    var all := PageOptions(opts, page);
    var first := UNSET.(itemsPerPage := DEFAULT_PAGE_SIZE);
    assert forall i :: 0 <= i < |opts| ==> all[i + 1] == opts[i];
    assert AllAccepted(all) ==> AllAccepted(opts) by {
      if AllAccepted(all) {
        forall i | 0 <= i < |opts| ensures Accepts(opts[i]) {
          assert Accepts(all[i + 1]);
        }
      }
    }
    assert AllAccepted(opts) ==> AllAccepted(all);
    SetAllAppend(UNSET, [WithItemsPerPage(DEFAULT_PAGE_SIZE)] + opts, [WithPage(page)]);
    SetAllAppend(UNSET, [WithItemsPerPage(DEFAULT_PAGE_SIZE)], opts);
    SizeIsIndependent(UNSET, first, opts);
    assert [WithPage(page)][1..] == [] && [WithItemsPerPage(DEFAULT_PAGE_SIZE)][1..] == [];
    assert SetAll(UNSET, [WithItemsPerPage(DEFAULT_PAGE_SIZE)]) == first;
  }

  // ---- The iterator ------------------------------------------------------

  datatype Reply<T> = Page(items: seq<T>, hasMore: bool) | Failed(code: int)

  datatype Yield<T> = Item(item: T) | Error(code: int)

  const INVALID_ARGUMENT: int := 3

  /** The fetch of one page: options that are refused fail before anything is sent. */
  function Fetch<T>(list: Config -> Reply<T>, opts: seq<ListOption>, page: UInt32): Reply<T> {
    match ConfigOf(PageOptions(opts, page))
    case None => Failed(INVALID_ARGUMENT)
    case Some(c) => list(c)
  }

  function FetchOf<T>(list: Config -> Reply<T>, opts: seq<ListOption>): UInt32 -> Reply<T> {
    (page: UInt32) => Fetch(list, opts, page)
  }

  predicate Ends<T>(reply: Reply<T>) {
    reply.Failed? || reply.items == [] || !reply.hasMore
  }

  function Items<T>(items: seq<T>): (r: seq<Yield<T>>)
    ensures |r| == |items| && forall i :: 0 <= i < |r| ==> r[i] == Item(items[i])
  {
    seq(|items|, i requires 0 <= i < |items| => Item(items[i]))
  }

  /** The consumer takes room more values, or all of them; it is asked at least once. */
  predicate Wants(room: Option<nat>) {
    room.Some? ==> room.value > 0
  }

  function Less(room: Option<nat>, n: nat): Option<nat>
    requires room.Some? ==> n <= room.value
  {
    match room case None => None case Some(r) => Some(r - n)
  }

  /** What is yielded from a page on, and how many pages are fetched for it. */
  function Walk<T>(fetch: UInt32 -> Reply<T>, page: UInt32, limit: UInt32, room: Option<nat>): (seq<Yield<T>>, nat)
    requires page <= limit && Ends(fetch(limit)) && Wants(room)
    decreases limit - page
  {
    match fetch(page)
    case Failed(code) => ([Error(code)], 1)
    case Page(items, hasMore) =>
      if room.Some? && room.value <= |items| then (Items(items[..room.value]), 1)
      else if !hasMore || items == [] then (Items(items), 1)
      else
        var (rest, n) := Walk(fetch, page + 1, limit, Less(room, |items|));
        (Items(items) + rest, n + 1)
  }

  /** A page that neither ends the list nor satisfies the consumer is followed by the next one. */
  lemma {:induction false} WalkOn<T>(fetch: UInt32 -> Reply<T>, page: UInt32, limit: UInt32, room: Option<nat>,
                                     items: seq<T>)
    requires page <= limit && Ends(fetch(limit)) && Wants(room)
    requires fetch(page) == Page(items, true) && items != [] && (room.Some? ==> |items| < room.value)
    ensures page < limit && Wants(Less(room, |items|))
    ensures Walk(fetch, page, limit, room).0 == Items(items) + Walk(fetch, page + 1, limit, Less(room, |items|)).0
    ensures Walk(fetch, page, limit, room).1 == Walk(fetch, page + 1, limit, Less(room, |items|)).1 + 1
  {
  }

  /** The loop over one page's items; stopped says that the consumer has had enough. */
  method YieldPage<T>(items: seq<T>, room: Option<nat>, out: seq<Yield<T>>)
    returns (now: seq<Yield<T>>, left: Option<nat>, stopped: bool)
    requires Wants(room)
    ensures stopped <==> room.Some? && room.value <= |items|
    ensures stopped ==> now == out + Items(items[..room.value])
    ensures !stopped ==> now == out + Items(items) && left == Less(room, |items|) && Wants(left)
  {
    now, left := out, room;
    for i := 0 to |items|
      invariant room.Some? ==> i < room.value
      invariant left == Less(room, i) && now == out + Items(items[..i])
    {
      assert Items(items[..i + 1]) == Items(items[..i]) + [Item(items[i])];
      now := now + [Item(items[i])];
      left := Less(left, 1);
      if left == Some(0) {
        return now, left, true;
      }
    }
    assert items[..|items|] == items;
    stopped := false;
  }

  method FetchPage<T>(list: Config -> Reply<T>, opts: seq<ListOption>, page: UInt32) returns (reply: Reply<T>)
    ensures reply == FetchOf(list, opts)(page)
  {
    var c := NewListConfig(PageOptions(opts, page));
    reply := if c.None? then Failed(INVALID_ARGUMENT) else list(c.value);
  }

  /** What has been yielded before a page, and what the walk from there yields, make up all of it. */
  predicate WalkedTo<T(==)>(fetch: UInt32 -> Reply<T>, page: UInt32, limit: UInt32, room: Option<nat>,
                            out: seq<Yield<T>>, all: (seq<Yield<T>>, nat))
    requires page <= limit && Ends(fetch(limit)) && Wants(room)
  {
    var rest := Walk(fetch, page, limit, room);
    out + rest.0 == all.0 && page + rest.1 == all.1
  }

  /** What is left to yield, given the reply for the next page. */
  lemma {:induction false} WalkFrom<T>(fetch: UInt32 -> Reply<T>, page: UInt32, limit: UInt32, room: Option<nat>,
                                       out: seq<Yield<T>>, all: (seq<Yield<T>>, nat), reply: Reply<T>)
    requires page <= limit && Ends(fetch(limit)) && Wants(room) && WalkedTo(fetch, page, limit, room, out, all)
    requires reply == fetch(page)
    ensures reply.Failed? ==> all == (out + [Error(reply.code)], page + 1)
    ensures reply.Page? && room.Some? && room.value <= |reply.items| ==>
              all == (out + Items(reply.items[..room.value]), page + 1)
    ensures reply.Page? && (room.Some? ==> room.value > |reply.items|) ==>
              if !reply.hasMore || reply.items == [] then all == (out + Items(reply.items), page + 1)
              else page < limit && Wants(Less(room, |reply.items|))
                   && WalkedTo(fetch, page + 1, limit, Less(room, |reply.items|), out + Items(reply.items), all)
  {
    if reply.Page? && reply.hasMore && reply.items != [] && (room.Some? ==> room.value > |reply.items|) {
      WalkOn(fetch, page, limit, room, reply.items);
      Assoc(out, Items(reply.items), Walk(fetch, page + 1, limit, Less(room, |reply.items|)).0);
    }
  }

  /**
   allPages, up to a page at which the list is known to end; the page number does
   not wrap around below it. pages are the numbers that were asked for.
   */
  method AllPages<T>(opts: seq<ListOption>, list: Config -> Reply<T>, want: Option<nat>, ghost limit: UInt32)
    returns (out: seq<Yield<T>>, pages: seq<UInt32>)
    requires Ends(FetchOf(list, opts)(limit)) && Wants(want)
    ensures (out, |pages|) == Walk(FetchOf(list, opts), 0, limit, want)
    ensures forall i :: 0 <= i < |pages| ==> pages[i] == i
  {
    out, pages := [], [];
    var page: UInt32 := 0;
    var room := want;
    ghost var fetch := FetchOf(list, opts);
    ghost var all := Walk(fetch, 0, limit, want);
    assert [] + all.0 == all.0;
    while true
      invariant page <= limit && Wants(room) && |pages| == page
      invariant forall i :: 0 <= i < |pages| ==> pages[i] == i
      invariant WalkedTo(fetch, page, limit, room, out, all)
      decreases limit - page
    {
      var reply := FetchPage(list, opts, page);
      pages := pages + [page];
      WalkFrom(fetch, page, limit, room, out, all, reply);
      if reply.Failed? {
        out := out + [Error(reply.code)];
        return;
      }
      var stopped;
      out, room, stopped := YieldPage(reply.items, room, out);
      if stopped {
        return;
      }
      if !reply.hasMore || reply.items == [] {
        return;
      }
      page := (page + 1) % 0x1_0000_0000;
    }
  }

  // ---- The iterator against an honest list -------------------------------

  /** One page of a list of items, for pages of size p. */
  function PageOf<T>(items: seq<T>, p: nat, page: UInt32): Reply<T>
    requires p > 0
  {
    var start := page * p;
    if start >= |items| then Page([], false)
    else if |items| - start <= p then Page(items[start..], false)
    else Page(items[start..start + p], true)
  }

  /** How many pages of size p hold n items, and at least one. */
  function PagesFor(n: nat, p: nat): nat
    requires p > 0
  {
    if n == 0 then 1 else (n - 1) / p + 1
  }

  lemma {:induction false} PagesForMore(n: nat, p: nat)
    requires 0 < p < n
    ensures PagesFor(n, p) == PagesFor(n - p, p) + 1
  {
    var x := n - 1 - p;
    var q, r := x / p, x % p;
    assert x == q * p + r;
    assert x + p == (q + 1) * p + r;
    QuotientIs(x + p, p, q + 1, r);
  }

  lemma {:induction false} Multiples(p: nat, a: nat, b: nat)
    requires a <= b
    ensures a * p <= b * p
  {
  }

  lemma {:induction false} OneMore(p: nat, a: nat)
    ensures (a + 1) * p == a * p + p
  {
  }

  lemma {:induction false} QuotientIs(x: nat, p: nat, q: nat, r: nat)
    requires 0 < p && r < p && x == q * p + r
    ensures x / p == q
  {
    var a := x / p;
    QuotientBounds(x, p);
    OneMore(p, q);
    OneMore(p, a);
    if a > q {
      Multiples(p, q + 1, a);
    }
    if a < q {
      Multiples(p, a + 1, q);
    }
  }

  lemma {:induction false} QuotientBounds(x: nat, p: nat)
    requires 0 < p
    ensures x / p * p <= x < x / p * p + p
  {
    assert x == x / p * p + x % p;
  }

  function Taken(n: nat, room: Option<nat>): nat {
    if room.Some? && room.value <= n then room.value else n
  }

  ghost predicate Honest<T>(fetch: UInt32 -> Reply<T>, items: seq<T>, p: nat)
    requires p > 0
  {
    forall page: UInt32 :: fetch(page) == PageOf(items, p, page)
  }

  lemma {:induction false} LastPage<T>(fetch: UInt32 -> Reply<T>, items: seq<T>, p: nat, page: UInt32, start: nat,
                    limit: UInt32, room: Option<nat>)
    requires p > 0 && fetch(page) == PageOf(items, p, page) && Wants(room)
    requires page <= limit && start == page * p <= |items| && Ends(fetch(limit))
    requires start == |items| ==> start == 0
    requires Taken(|items| - start, room) <= p
    ensures var m := Taken(|items| - start, room);
            Walk(fetch, page, limit, room) == (Items(items[start..start + m]), 1)
  {
    var m := Taken(|items| - start, room);
    var got := fetch(page).items;
    assert got[..m] == items[start..start + m];
    assert m == |got| ==> got[..m] == got;
  }

  lemma {:induction false} OnePageMore<T>(fetch: UInt32 -> Reply<T>, items: seq<T>, p: nat, page: UInt32, start: nat,
                       limit: UInt32, room: Option<nat>, m: nat)
    requires p > 0 && fetch(page) == PageOf(items, p, page) && Wants(room)
    requires page < limit && start == page * p && Ends(fetch(limit))
    requires p < m <= |items| - start && (room.Some? ==> p < room.value)
    requires Walk(fetch, page + 1, limit, Less(room, p)) == (Items(items[start + p..start + m]), PagesFor(m - p, p))
    ensures Walk(fetch, page, limit, room) == (Items(items[start..start + m]), PagesFor(m, p))
  {
    PagesForMore(m, p);
    WalkOn(fetch, page, limit, room, items[start..start + p]);
    assert Items(items[start..start + m]) == Items(items[start..start + p]) + Items(items[start + p..start + m]);
  }

  lemma {:induction false} WalkHonest<T>(fetch: UInt32 -> Reply<T>, items: seq<T>, p: nat, page: UInt32, start: nat,
                                         limit: UInt32, room: Option<nat>)
    requires p > 0 && Honest(fetch, items, p) && Wants(room)
    requires page <= limit && start == page * p <= |items| && Ends(fetch(limit)) && |items| - start <= (limit - page) * p
    requires start == |items| ==> start == 0
    ensures var m := Taken(|items| - start, room);
            Walk(fetch, page, limit, room) == (Items(items[start..start + m]), PagesFor(m, p))
    decreases limit - page
  {
    var m := Taken(|items| - start, room);
    assert fetch(page) == PageOf(items, p, page);
    if m <= p {
      LastPage(fetch, items, p, page, start, limit, room);
      SmallPages(m, p);
    } else {
      NextStart(page, limit, p);
      WalkHonest(fetch, items, p, page + 1, start + p, limit, Less(room, p));
      assert Taken(|items| - (start + p), Less(room, p)) == m - p;
      OnePageMore(fetch, items, p, page, start, limit, room, m);
    }
  }

  lemma {:induction false} NextStart(page: nat, limit: nat, p: nat)
    ensures (page + 1) * p == page * p + p
    ensures (limit - page) * p == (limit - (page + 1)) * p + p
  {
  }

  lemma {:induction false} SmallPages(n: nat, p: nat)
    requires p > 0 && n <= p
    ensures PagesFor(n, p) == 1
  {
    if n > 0 {
      QuotientIs(n - 1, p, 0, n - 1);
    }
  }

  /**
   Against a list that does not change, the iterator yields every item once and
   in order, or as many as the consumer takes, and fetches no page that it does
   not need. No page option of the caller makes a difference.
   */
  lemma {:induction false} AllPagesIsTheList<T>(opts: seq<ListOption>, list: Config -> Reply<T>, items: seq<T>,
                                                p: nat, want: Option<nat>,
                             limit: UInt32)
    requires p > 0 && Wants(want) && Honest(FetchOf(list, opts), items, p) && |items| <= limit * p
    ensures Ends(FetchOf(list, opts)(limit))
    ensures var m := Taken(|items|, want);
            Walk(FetchOf(list, opts), 0, limit, want) == (Items(items[..m]), PagesFor(m, p))
  {
    assert Ends(FetchOf(list, opts)(limit));
    WalkHonest(FetchOf(list, opts), items, p, 0, 0, limit, want);
  }

  // ---- The iterator against any list -------------------------------------

  /** An error is the last thing that is yielded, and is yielded exactly if the last fetch failed. */
  lemma {:induction false} OneErrorAtMost<T>(fetch: UInt32 -> Reply<T>, page: UInt32, limit: UInt32, room: Option<nat>)
    requires page <= limit && Ends(fetch(limit)) && Wants(room)
    ensures var (out, n) := Walk(fetch, page, limit, room);
            && 0 < n <= limit - page + 1
            && (forall i :: 0 <= i < |out| - 1 ==> out[i].Item?)
            && (var last := fetch(page + n - 1);
                if last.Failed? then out != [] && out[|out| - 1] == Error(last.code)
                else out != [] ==> out[|out| - 1].Item?)
    decreases limit - page
  {
    var reply := fetch(page);
    if reply.Page? && !(room.Some? && room.value <= |reply.items|) && reply.hasMore && reply.items != [] {
      OneErrorAtMost(fetch, page + 1, limit, Less(room, |reply.items|));
    }
  }

  /** A page without items ends the walk, even if the list claims that there is more. */
  lemma {:induction false} EndingPageEnds<T>(fetch: UInt32 -> Reply<T>, page: UInt32, limit: UInt32,
                                             room: Option<nat>, e: UInt32)
    requires page <= e <= limit && Ends(fetch(limit)) && Wants(room) && Ends(fetch(e))
    ensures Walk(fetch, page, limit, room).1 <= e - page + 1
    ensures Walk(fetch, page, limit, room) == Walk(fetch, page, e, room)
    decreases e - page
  {
    var reply := fetch(page);
    if page < e && reply.Page? && !(room.Some? && room.value <= |reply.items|) && reply.hasMore && reply.items != [] {
      EndingPageEnds(fetch, page + 1, limit, Less(room, |reply.items|), e);
    }
  }

  /** Options that are refused end the iteration with that one error. */
  lemma {:induction false} RefusedOptionsFail<T>(opts: seq<ListOption>, list: Config -> Reply<T>, want: Option<nat>,
                                                 limit: UInt32)
    requires ConfigOf(opts) == None && Wants(want)
    ensures Ends(FetchOf(list, opts)(limit))
    ensures Walk(FetchOf(list, opts), 0, limit, want) == ([Error(INVALID_ARGUMENT)], 1)
  {
    PageRequest(opts, 0);
    PageRequest(opts, limit);
  }

  /** The caller's page number is never sent: options that differ in nothing else ask for the same pages. */
  lemma {:induction false} PageOptionIsIgnored<T>(a: seq<ListOption>, b: seq<ListOption>, n: UInt32,
                                                  list: Config -> Reply<T>, page: UInt32)
    ensures Fetch(list, a + [WithPage(n)] + b, page) == Fetch(list, a + b, page)
  {
    PageRequest(a + [WithPage(n)] + b, page);
    PageRequest(a + b, page);
    PageOptionSetsPage(a, b, n);
  }

  lemma {:induction false} PageIsIndependent(c: Config, d: Config, opts: seq<ListOption>)
    requires d == c.(page := d.page)
    ensures SetAll(d, opts) == SetAll(c, opts).(page := SetAll(d, opts).page)
    decreases |opts|
  {
    if opts != [] {
      PageIsIndependent(Set(c, opts[0]), Set(d, opts[0]), opts[1..]);
    }
  }

  lemma {:induction false} PageOptionSetsPage(a: seq<ListOption>, b: seq<ListOption>, n: UInt32)
    ensures var x, y := ConfigOf(a + [WithPage(n)] + b), ConfigOf(a + b);
            x.Some? == y.Some? && (x.Some? ==> x.value == y.value.(page := x.value.page))
    ensures SetsSize(a + [WithPage(n)] + b) == SetsSize(a + b)
  {
    var x, y := a + [WithPage(n)] + b, a + b;
    assert forall i :: 0 <= i < |a| ==> x[i] == a[i] == y[i];
    assert x[|a|] == WithPage(n);
    assert forall i :: |a| < i < |x| ==> x[i] == y[i - 1];
    assert forall i :: |a| <= i < |y| ==> y[i] == x[i + 1];
    SetAllAppend(UNSET, a + [WithPage(n)], b);
    SetAllAppend(UNSET, a, [WithPage(n)]);
    SetAllAppend(UNSET, a, b);
    assert [WithPage(n)][1..] == [];
    PageIsIndependent(SetAll(UNSET, a), SetAll(UNSET, a + [WithPage(n)]), b);
  }
}
