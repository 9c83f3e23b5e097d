/** The Store catalog in bounded pages, each naming the next by a cursor of its offset and the catalog's digest. */
module Catalog {
  import opened Frames
  import opened Json
  import opened Packing
  import opened Wrappers

  const PAGE_BYTES: nat := MAX_OUTBOUND_BYTES - 4 * 1024
  const LOCALES := {"ar", "de", "en", "es", "fr", "ja", "pt", "zh"}
  const MAX_OFFSET: nat := 9999
  const DIGEST_CHARS: nat := 32

  datatype Fault = InvalidLocale | Unavailable | InvalidCursor | CatalogChanged

  /** One page's entries as compact JSON, and the cursor of the page after it. */
  datatype Page = Page(locale: string, assistants: seq<string>, next: Option<string>)

  // ---- Cursors ----

  predicate IsDigit(c: char) {
    '0' <= c <= '9'
  }

  predicate IsDigest(digest: string) {
    |digest| == DIGEST_CHARS && forall c <- digest :: IsDigit(c) || 'a' <= c <= 'f'
  }

  /** The offset part of a cursor: one to four digits, the first not zero. */
  predicate IsOffset(digits: string) {
    1 <= |digits| <= 4 && digits[0] != '0' && forall c <- digits :: IsDigit(c)
  }

  function Digit(value: nat): char
    requires value < 10
  {
    ('0' as int + value) as char
  }

  function Decimal(n: nat): string {
    if n < 10 then [Digit(n)] else Decimal(n / 10) + [Digit(n % 10)]
  }

  function Parsed(digits: string): int {
    if digits == "" then 0 else Parsed(digits[..|digits| - 1]) * 10 + (digits[|digits| - 1] as int - '0' as int)
  }

  function Cursor(end: nat, digest: string): string {
    Decimal(end) + "." + digest
  }

  predicate IsCursor(cursor: string) {
    && |cursor| > DIGEST_CHARS + 1
    && var dot := |cursor| - DIGEST_CHARS - 1;
      IsOffset(cursor[..dot]) && cursor[dot] == '.' && IsDigest(cursor[dot + 1..])
  }

  /** The offset a cursor names, or why it names none here; no cursor names the first entry. */
  function Start(cursor: Option<string>, digest: string, count: nat): Result<nat, Fault> {
    if cursor.None? then Success(0)
    else if !IsCursor(cursor.value) then Failure(InvalidCursor)
    else
      var dot := |cursor.value| - DIGEST_CHARS - 1;
      var offset := Parsed(cursor.value[..dot]);
      if cursor.value[dot + 1..] != digest then Failure(CatalogChanged)
      else if offset < 0 || offset >= count then Failure(InvalidCursor)
      else Success(offset)
  }

  lemma {:induction false} DecimalReadsBack(n: nat)
    ensures Parsed(Decimal(n)) == n && Decimal(n) != ""
    ensures (forall c <- Decimal(n) :: IsDigit(c)) && (Decimal(n)[0] == '0' <==> n == 0)
  {
    if n < 10 {
      assert Decimal(n)[..0] == "";
    } else {
      DecimalReadsBack(n / 10);
      assert Decimal(n)[..|Decimal(n)| - 1] == Decimal(n / 10);
    }
  }

  lemma {:induction false} ParsedPrintsBack(digits: string)
    requires digits != "" && digits[0] != '0' && forall c <- digits :: IsDigit(c)
    ensures Parsed(digits) > 0 && Decimal(Parsed(digits)) == digits
  {
    var shorter := digits[..|digits| - 1];
    if shorter == "" {
      assert IsDigit(digits[0]) && digits == [digits[0]] && Parsed(shorter) == 0;
      assert Parsed(digits) == digits[0] as int - '0' as int && Digit(Parsed(digits)) == digits[0];
    } else {
      ParsedPrintsBack(shorter);
      var value := digits[|digits| - 1] as int - '0' as int;
      assert IsDigit(digits[|digits| - 1]) && Digit(value) == digits[|digits| - 1];
      assert Parsed(digits) == Parsed(shorter) * 10 + value;
      assert digits == shorter + [digits[|digits| - 1]];
    }
  }

  function Power10(k: nat): nat {
    if k == 0 then 1 else 10 * Power10(k - 1)
  }

  lemma {:induction false} DecimalLength(n: nat, k: nat)
    requires k > 0
    ensures |Decimal(n)| <= k <==> n < Power10(k)
  {
    if k == 1 {
    } else {
      DecimalLength(n / 10, k - 1);
    }
  }

  lemma CursorReadsBack(digest: string, count: nat, offset: nat)
    requires IsDigest(digest)
    ensures IsCursor(Cursor(offset, digest)) <==> 1 <= offset <= MAX_OFFSET
    ensures 1 <= offset <= MAX_OFFSET ==>
              Start(Some(Cursor(offset, digest)), digest, count) ==
              if offset < count then Success(offset) else Failure(InvalidCursor)
  {
    DecimalReadsBack(offset);
    DecimalLength(offset, 4);
    var cursor, dot := Cursor(offset, digest), |Decimal(offset)|;
    assert |cursor| - DIGEST_CHARS - 1 == dot;
    assert cursor[..dot] == Decimal(offset) && cursor[dot] == '.' && cursor[dot + 1..] == digest;
  }

  lemma AcceptedIsPrinted(cursor: string, digest: string, count: nat)
    requires IsDigest(digest) && Start(Some(cursor), digest, count).Success?
    ensures cursor == Cursor(Start(Some(cursor), digest, count).value, digest)
  {
    var dot := |cursor| - DIGEST_CHARS - 1;
    ParsedPrintsBack(cursor[..dot]);
    assert cursor == cursor[..dot] + "." + cursor[dot + 1..];
  }

  /** A cursor is accepted exactly when it is the printed one of an offset below 10,000 inside this very catalog. */
  lemma StartAcceptsExactly(cursor: string, digest: string, count: nat, offset: nat)
    requires IsDigest(digest)
    ensures Start(Some(cursor), digest, count) == Success(offset) <==>
            cursor == Cursor(offset, digest) && 1 <= offset <= 9999 && offset < count
  {
    CursorReadsBack(digest, count, offset);
    if Start(Some(cursor), digest, count).Success? {
      AcceptedIsPrinted(cursor, digest, count);
    }
  }

  /** A cursor of a catalog that changed since is refused as such, wherever it pointed and whatever is there now. */
  lemma ChangedCatalogIsRefused(digest: string, now: string, count: nat, offset: nat)
    requires IsDigest(digest) && IsDigest(now) && digest != now && 1 <= offset <= MAX_OFFSET
    ensures Start(Some(Cursor(offset, digest)), now, count) == Failure(CatalogChanged)
  {
    CursorReadsBack(digest, count, offset);
    var cursor, dot := Cursor(offset, digest), |Decimal(offset)|;
    assert |cursor| - DIGEST_CHARS - 1 == dot && cursor[dot + 1..] == digest;
  }

  // ---- Pages ----

  /** What one page may hold. */
  predicate PageFits(assistants: seq<string>) {
    |Items(assistants)| < PAGE_BYTES
  }

  /** Where the page that starts at `first` stops. */
  function PageEnd(entries: seq<string>, first: nat): (end: nat)
    requires first <= |entries|
    ensures first <= end <= |entries| && PageFits(entries[first..end])
    ensures end == |entries| || !PageFits(entries[first..end + 1])
  {
    Filled(entries, PageFits, first, first)
  }

  /** The page in `locale` at `cursor` of the catalog now published, or why there is none. */
  function PageOf(locale: string, catalog: Option<seq<string>>, digest: string, cursor: Option<string>)
    : (page: Result<Page, Fault>)
  {
    if locale !in LOCALES then Failure(InvalidLocale)
    else if catalog.None? then Failure(Unavailable)
    else
      var entries := catalog.value;
      var start := Start(cursor, digest, |entries|);
      if start.Failure? then Failure(start.error)
      else
        var first, end := start.value, PageEnd(entries, start.value);
        if end == first && first < |entries| then Failure(Unavailable)
        else Success(Page(locale, entries[first..end], if end < |entries| then Some(Cursor(end, digest)) else None))
  }

  /** A page's list stays below 4 KiB less than a frame's bound, and with one more entry would not. */
  lemma PageIsFull(entries: seq<string>, first: nat)
    requires first <= |entries|
    ensures var end := PageEnd(entries, first);
      && first <= end <= |entries| && |Items(entries[first..end])| < 1_044_480
      && (end < |entries| ==> |Items(entries[first..end + 1])| >= 1_044_480)
  {
  }

  lemma PageTakes(entries: seq<string>, first: nat, end: nat)
    requires first <= end < |entries|
    ensures |Items(entries[first..end + 1])| ==
            |Items(entries[first..end])| + (if end > first then 1 else 0) + |entries[end]|
  {
    ItemsAppend(entries[first..end], entries[end]);
    assert entries[first..end + 1] == entries[first..end] + [entries[end]];
  }

  /** A page under way, with its running size: it fits, and full it is the page that starts here. */
  ghost predicate UnderWay(entries: seq<string>, first: nat, end: nat, used: nat) {
    && first <= end <= |entries| && PageFits(entries[first..end])
    && used == |Items(entries[first..end])| + (if end > first then 1 else 0)
    && Filled(entries, PageFits, first, end) == PageEnd(entries, first)
  }

  /** The running size tells whether the page takes the next entry, or stops before it. */
  lemma PageGoesOn(entries: seq<string>, first: nat, end: nat, used: nat)
    requires UnderWay(entries, first, end, used) && end < |entries|
    ensures if used + |entries[end]| < PAGE_BYTES then UnderWay(entries, first, end + 1, used + |entries[end]| + 1)
            else end == PageEnd(entries, first)
  {
    PageTakes(entries, first, end);
  }

  lemma PageStarts(entries: seq<string>, first: nat)
    requires first <= |entries|
    ensures UnderWay(entries, first, first, 0)
  {
    assert entries[first..first] == [];
  }

  /** A page that took every entry stops at the end. */
  lemma PageEnds(entries: seq<string>, first: nat, used: nat)
    requires UnderWay(entries, first, |entries|, used)
    ensures PageEnd(entries, first) == |entries|
  {
  }

  /** The page's loop, with its running size, stops where the page is full. */
  method FilledTo(encoded: seq<string>, first: nat) returns (end: nat)
    requires first <= |encoded|
    ensures end == PageEnd(encoded, first)
  {
    var used: nat := 0;
    end := first;
    PageStarts(encoded, first);
    while end < |encoded| && used + |encoded[end]| < PAGE_BYTES
      invariant UnderWay(encoded, first, end, used)
    {
      PageGoesOn(encoded, first, end, used);
      used := used + |encoded[end]| + 1;
      end := end + 1;
    }
    if end < |encoded| {
      PageGoesOn(encoded, first, end, used);
    } else {
      PageEnds(encoded, first, used);
    }
  }

  method CatalogPage(locale: string, catalog: Option<seq<string>>, digest: string, cursor: Option<string>)
    returns (page: Result<Page, Fault>)
    ensures page == PageOf(locale, catalog, digest, cursor)
  {
    if locale !in LOCALES {
      return Failure(InvalidLocale);
    }
    if catalog.None? {
      return Failure(Unavailable);
    }
    var encoded := catalog.value;
    var start := Start(cursor, digest, |encoded|);
    if start.Failure? {
      return Failure(start.error);
    }
    var first := start.value;
    var end := FilledTo(encoded, first);
    if end == first && first < |encoded| {
      return Failure(Unavailable);
    }
    var next := if end < |encoded| then Some(Cursor(end, digest)) else None;
    return Success(Page(locale, encoded[first..end], next));
  }

  /** A page is refused for one reason, in this order: its locale, a catalog not published, its cursor, its entry. */
  lemma RefusalsInOrder(locale: string, catalog: Option<seq<string>>, digest: string, cursor: Option<string>)
    requires IsDigest(digest)
    ensures var page := PageOf(locale, catalog, digest, cursor);
      && (locale !in {"ar", "de", "en", "es", "fr", "ja", "pt", "zh"} <==> page == Failure(InvalidLocale))
      && (locale in LOCALES && catalog.None? ==> page == Failure(Unavailable))
      && (locale in LOCALES && catalog.Some? && cursor.Some? && !IsCursor(cursor.value) ==>
            page == Failure(InvalidCursor))
      && (locale in LOCALES && catalog.Some? && cursor.None? && catalog.value != [] && |catalog.value[0]| >= PAGE_BYTES
          ==> page == Failure(Unavailable))
      && (page.Success? ==> page.value.locale == locale)
  {
    if catalog.Some? && catalog.value != [] && |catalog.value[0]| >= PAGE_BYTES {
      PageTakes(catalog.value, 0, 0);
    }
  }

  // ---- Reading the whole catalog ----

  /** The pages a client reads by following `next` from `cursor` while the catalog does not change. */
  function Walk(locale: string, entries: seq<string>, digest: string, cursor: Option<string>)
    : Result<seq<seq<string>>, Fault>
    requires IsDigest(digest)
    decreases Left(entries, digest, cursor)
  {
    var page := PageOf(locale, Some(entries), digest, cursor);
    if page.Failure? then Failure(page.error)
    else if page.value.next.None? then Success([page.value.assistants])
    else
      CursorReadsBack(digest, |entries|, PageEnd(entries, Start(cursor, digest, |entries|).value));
      var rest := Walk(locale, entries, digest, page.value.next);
      if rest.Failure? then rest else Success([page.value.assistants] + rest.value)
  }

  function Left(entries: seq<string>, digest: string, cursor: Option<string>): int {
    var start := Start(cursor, digest, |entries|);
    if start.Success? then |entries| - start.value else 0
  }

  /** Where the last page starts when no cursor is refused. */
  function LastStart(entries: seq<string>, first: nat): nat
    requires first <= |entries|
    decreases |entries| - first
  {
    var end := PageEnd(entries, first);
    if end == first || end == |entries| then first else LastStart(entries, end)
  }

  predicate EachFits(entries: seq<string>) {
    forall entry <- entries :: |entry| < PAGE_BYTES
  }

  lemma {:induction false} LaterStart(entries: seq<string>, first: nat)
    requires first <= |entries|
    ensures first <= LastStart(entries, first)
    ensures |entries| > 0 && first < |entries| ==> LastStart(entries, first) < |entries|
    decreases |entries| - first
  {
    var end := PageEnd(entries, first);
    if first < end < |entries| {
      LaterStart(entries, end);
    }
  }

  lemma EachOfPageFits(entries: seq<string>, first: nat, end: nat)
    requires first <= end <= |entries| && PageFits(entries[first..end])
    ensures EachFits(entries[first..end])
  {
    forall k | first <= k < end ensures |entries[k]| < PAGE_BYTES {
      PartIsShorter(entries, first, end, k, k + 1);
      assert entries[k..k + 1] == [entries[k]];
    }
    assert forall entry <- entries[first..end] :: exists k :: first <= k < end && entry == entries[k];
  }

  lemma StartIsSmall(cursor: Option<string>, digest: string, count: nat)
    requires IsDigest(digest) && Start(cursor, digest, count).Success?
    ensures Start(cursor, digest, count).value <= MAX_OFFSET
  {
    if cursor.Some? {
      StartAcceptsExactly(cursor.value, digest, count, Start(cursor, digest, count).value);
    }
  }

  /** What a client reads from one accepted cursor on. */
  ghost predicate Reads(walk: Result<seq<seq<string>>, Fault>, entries: seq<string>, first: nat)
    requires first <= |entries|
  {
    && (walk.Success? <==> EachFits(entries[first..]) && LastStart(entries, first) <= MAX_OFFSET)
    && (walk.Success? ==> Covers(walk.value, entries[first..]))
  }

  /** Full pages that split what is left of the catalog. */
  ghost predicate Covers(pages: seq<seq<string>>, left: seq<string>) {
    Splits(pages, left, PageFits) && Full(pages, PageFits) && pages != []
  }

  lemma OnePageReads(entries: seq<string>, first: nat)
    requires first < |entries| && first <= MAX_OFFSET && PageEnd(entries, first) == |entries|
    ensures Reads(Success([entries[first..]]), entries, first)
  {
    EachOfPageFits(entries, first, |entries|);
    assert entries[first..|entries|] == entries[first..];
  }

  lemma NoPageReads(entries: seq<string>, first: nat, fault: Fault)
    requires first < |entries| && PageEnd(entries, first) == first
    ensures Reads(Failure(fault), entries, first)
  {
    assert entries[first..first + 1] == [entries[first]] && entries[first] in entries[first..];
  }

  /** A page and the pages of the rest cover what both hold. */
  lemma PageThenRest(entries: seq<string>, first: nat, end: nat, rest: seq<seq<string>>)
    requires first < end < |entries| && end == PageEnd(entries, first) && Covers(rest, entries[end..])
    ensures Covers([entries[first..end]] + rest, entries[first..])
  {
    FilledThenRest(entries, PageFits, first, rest);
  }

  lemma LastStartAfterPage(entries: seq<string>, first: nat)
    requires first <= |entries| && first < PageEnd(entries, first) < |entries|
    ensures LastStart(entries, first) == LastStart(entries, PageEnd(entries, first))
  {
  }

  lemma EachFitsAfterPage(entries: seq<string>, first: nat, end: nat)
    requires first <= |entries| && end == PageEnd(entries, first)
    ensures EachFits(entries[first..]) <==> EachFits(entries[end..])
  {
    EachOfPageFits(entries, first, end);
    assert entries[first..] == entries[first..end] + entries[end..];
  }

  lemma PageAndRestRead(entries: seq<string>, first: nat, end: nat, rest: Result<seq<seq<string>>, Fault>)
    requires first < end < |entries| && end == PageEnd(entries, first) && Reads(rest, entries, end)
    ensures Reads(if rest.Success? then Success([entries[first..end]] + rest.value) else rest, entries, first)
  {
    EachFitsAfterPage(entries, first, end);
    LastStartAfterPage(entries, first);
    if rest.Success? {
      PageThenRest(entries, first, end, rest.value);
    }
  }

  /** One step of a walk: a refused page ends it, the last page completes it, and any other goes on at its end. */
  lemma WalkStep(locale: string, entries: seq<string>, digest: string, cursor: Option<string>, first: nat, end: nat)
    requires IsDigest(digest) && locale in LOCALES && Start(cursor, digest, |entries|) == Success(first)
    requires first < |entries| && end == PageEnd(entries, first)
    ensures var walk, next := Walk(locale, entries, digest, cursor), Some(Cursor(end, digest));
      && (end == first ==> walk == Failure(Unavailable))
      && (first < end == |entries| ==> walk == Success([entries[first..]]))
      && (first < end < |entries| ==>
            var rest := Walk(locale, entries, digest, next);
            walk == if rest.Success? then Success([entries[first..end]] + rest.value) else rest)
  {
    if end == first {
      StuckWalk(locale, entries, digest, cursor, first);
    } else if end == |entries| {
      LastWalk(locale, entries, digest, cursor, first);
    } else {
      OngoingWalk(locale, entries, digest, cursor, first, end);
    }
  }

  lemma StuckWalk(locale: string, entries: seq<string>, digest: string, cursor: Option<string>, first: nat)
    requires IsDigest(digest) && locale in LOCALES && Start(cursor, digest, |entries|) == Success(first)
    requires first < |entries| && PageEnd(entries, first) == first
    ensures Walk(locale, entries, digest, cursor) == Failure(Unavailable)
  {
    assert PageOf(locale, Some(entries), digest, cursor) == Failure(Unavailable);
  }

  lemma LastWalk(locale: string, entries: seq<string>, digest: string, cursor: Option<string>, first: nat)
    requires IsDigest(digest) && locale in LOCALES && Start(cursor, digest, |entries|) == Success(first)
    requires first < |entries| && PageEnd(entries, first) == |entries|
    ensures Walk(locale, entries, digest, cursor) == Success([entries[first..]])
  {
    assert entries[first..|entries|] == entries[first..];
    assert PageOf(locale, Some(entries), digest, cursor) == Success(Page(locale, entries[first..], None));
  }

  lemma OngoingWalk(locale: string, entries: seq<string>, digest: string, cursor: Option<string>, first: nat, end: nat)
    requires IsDigest(digest) && locale in LOCALES && Start(cursor, digest, |entries|) == Success(first)
    requires first < end < |entries| && PageEnd(entries, first) == end
    ensures var rest := Walk(locale, entries, digest, Some(Cursor(end, digest)));
      Walk(locale, entries, digest, cursor) ==
      if rest.Success? then Success([entries[first..end]] + rest.value) else rest
  {
    assert PageOf(locale, Some(entries), digest, cursor) ==
           Success(Page(locale, entries[first..end], Some(Cursor(end, digest))));
  }

  lemma RefusedCursorReads(
      locale: string, entries: seq<string>, digest: string, end: nat)
    requires IsDigest(digest) && locale in LOCALES && MAX_OFFSET < end < |entries|
    ensures Reads(Walk(locale, entries, digest, Some(Cursor(end, digest))), entries, end)
  {
    CursorReadsBack(digest, |entries|, end);
    LaterStart(entries, end);
  }

  lemma {:induction false} WalkFrom(
      locale: string, entries: seq<string>, digest: string, cursor: Option<string>, first: nat)
    requires IsDigest(digest) && locale in LOCALES && first < |entries|
    requires Start(cursor, digest, |entries|) == Success(first)
    ensures Reads(Walk(locale, entries, digest, cursor), entries, first)
    decreases |entries| - first
  {
    var end := PageEnd(entries, first);
    WalkStep(locale, entries, digest, cursor, first, end);
    if end == first {
      NoPageReads(entries, first, Unavailable);
    } else if end == |entries| {
      StartIsSmall(cursor, digest, |entries|);
      OnePageReads(entries, first);
    } else {
      var next := Some(Cursor(end, digest));
      if end <= MAX_OFFSET {
        CursorReadsBack(digest, |entries|, end);
        WalkFrom(locale, entries, digest, next, end);
      } else {
        RefusedCursorReads(locale, entries, digest, end);
      }
      PageAndRestRead(entries, first, end, Walk(locale, entries, digest, next));
    }
  }

  lemma PartsOfPagesFit(entries: seq<string>)
    ensures PartsFit(entries, PageFits)
  {
    forall i: nat, j: nat, i': nat, j': nat | i <= i' < j' <= j <= |entries| && PageFits(entries[i..j])
      ensures PageFits(entries[i'..j'])
    {
      PartIsShorter(entries, i, j, i', j');
    }
  }

  /**
  Following `next` from the first page reads the whole catalog, in order and in as few pages as any split takes, exactly
  when each entry fits a page alone and the last page starts below offset 10,000; an empty catalog is one empty page.
  */
  lemma WalkReadsTheCatalog(locale: string, entries: seq<string>, digest: string)
    requires IsDigest(digest) && locale in LOCALES
    ensures var walk := Walk(locale, entries, digest, None);
      && (walk.Success? <==> EachFits(entries) && LastStart(entries, 0) <= MAX_OFFSET)
      && (walk.Success? ==> Joined(walk.value) == entries)
      && (entries == [] ==> walk == Success([[]]))
      && (walk.Success? && entries != [] ==> IsShortestSplit(walk.value, entries))
  {
    var walk := Walk(locale, entries, digest, None);
    if entries == [] {
      EmptyCatalogIsOnePage(locale, digest);
    } else {
      WalkFrom(locale, entries, digest, None, 0);
      assert entries[0..] == entries;
      if walk.Success? {
        CoversShortest(walk.value, entries);
      }
    }
  }

  /** Pages of the catalog than which no other split within the bound has fewer. */
  ghost predicate IsShortestSplit(pages: seq<seq<string>>, entries: seq<string>) {
    Splits(pages, entries, PageFits) && forall other :: Splits(other, entries, PageFits) ==> |pages| <= |other|
  }

  lemma CoversShortest(pages: seq<seq<string>>, entries: seq<string>)
    requires Covers(pages, entries)
    ensures IsShortestSplit(pages, entries)
  {
    PartsOfPagesFit(entries);
    forall other | Splits(other, entries, PageFits) ensures |pages| <= |other| {
      FullIsMinimal(pages, other, entries, PageFits);
    }
  }

  lemma EmptyCatalogIsOnePage(locale: string, digest: string)
    requires IsDigest(digest) && locale in LOCALES
    ensures Walk(locale, [], digest, None) == Success([[]]) && LastStart([], 0) == 0
  {
    assert PageEnd([], 0) == 0;
  }

  /** A catalog of at most 10,000 entries is read whole exactly when each entry fits a page alone. */
  lemma ShortCatalogsAreRead(locale: string, entries: seq<string>, digest: string)
    requires IsDigest(digest) && locale in LOCALES && |entries| <= MAX_OFFSET + 1
    ensures Walk(locale, entries, digest, None).Success? <==> EachFits(entries)
  {
    WalkReadsTheCatalog(locale, entries, digest);
    LaterStart(entries, 0);
  }

  predicate EachIsLarge(entries: seq<string>) {
    forall entry <- entries :: PAGE_BYTES <= 2 * |entry| < 2 * PAGE_BYTES
  }

  lemma LargeEntryPagesAlone(entries: seq<string>, first: nat)
    requires first < |entries| && EachIsLarge(entries)
    ensures PageEnd(entries, first) == first + 1
  {
    var end := PageEnd(entries, first);
    assert entries[first] in entries;
    PageTakes(entries, first, first);
    if end > first + 1 {
      assert entries[first + 1] in entries;
      PageTakes(entries, first, first + 1);
      PartIsShorter(entries, first, end, first, first + 2);
    }
  }

  lemma {:induction false} LargeEntriesPageAlone(entries: seq<string>, first: nat)
    requires first < |entries| && EachIsLarge(entries)
    ensures LastStart(entries, first) == |entries| - 1
    decreases |entries| - first
  {
    LargeEntryPagesAlone(entries, first);
    if first + 1 < |entries| {
      LargeEntriesPageAlone(entries, first + 1);
    }
  }

  /** More than 10,000 entries of half a page or more are never read whole: the cursor of the 10,001st is refused. */
  lemma LongCatalogIsRefused(locale: string, entries: seq<string>, digest: string)
    requires IsDigest(digest) && locale in LOCALES && |entries| > MAX_OFFSET + 1
    requires EachIsLarge(entries)
    ensures EachFits(entries) && Walk(locale, entries, digest, None).Failure?
    ensures IsCursor(Cursor(MAX_OFFSET, digest)) && !IsCursor(Cursor(MAX_OFFSET + 1, digest))
  {
    LargeEntriesPageAlone(entries, 0);
    WalkReadsTheCatalog(locale, entries, digest);
    CursorReadsBack(digest, |entries|, MAX_OFFSET);
    CursorReadsBack(digest, |entries|, MAX_OFFSET + 1);
  }

  // ---- The frame ----

  const MAX_CALL_ID_CHARS: nat := 64
  const USIZE_DIGITS: nat := 20

  /** The socket frame one page's result is sent as; neither the id, the locale, nor a cursor needs an escape. */
  function Frame(id: string, page: Page): string {
    "{\"type\":\"result\",\"id\":\"" + id + "\",\"status\":200,\"body\":{\"version\":1,\"locale\":\"" + page.locale
    + "\",\"assistants\":[" + Items(page.assistants) + "],\"next\":"
    + (if page.next.Some? then "\"" + page.next.value + "\"" else "null") + "}}"
  }

  /** What a frame adds to its id, locale, entries and cursor, each of which it holds whole. */
  lemma FrameLength(id: string, page: Page)
    ensures |Frame(id, page)| == 95 + |id| + |page.locale| + |Items(page.assistants)|
                                 + if page.next.Some? then |page.next.value| + 2 else 4
  {
  }

  /** Every page's frame is within the socket's bound, however many entries a machine word can count. */
  lemma FrameFits(id: string, locale: string, entries: seq<string>, digest: string, cursor: Option<string>)
    requires |id| <= MAX_CALL_ID_CHARS && IsDigest(digest) && |entries| < Power10(USIZE_DIGITS)
    requires PageOf(locale, Some(entries), digest, cursor).Success?
    ensures |Frame(id, PageOf(locale, Some(entries), digest, cursor).value)| <= MAX_OUTBOUND_BYTES
  {
    PageIsShort(locale, entries, digest, cursor);
  }

  lemma PageIsShort(locale: string, entries: seq<string>, digest: string, cursor: Option<string>)
    requires IsDigest(digest) && |entries| < Power10(USIZE_DIGITS)
    requires PageOf(locale, Some(entries), digest, cursor).Success?
    ensures var page := PageOf(locale, Some(entries), digest, cursor).value;
      && |page.locale| == 2 && |Items(page.assistants)| < PAGE_BYTES
      && (page.next.Some? ==> |page.next.value| <= USIZE_DIGITS + 1 + |digest|)
  {
    DecimalLength(PageEnd(entries, Start(cursor, digest, |entries|).value), USIZE_DIGITS);
  }
}
