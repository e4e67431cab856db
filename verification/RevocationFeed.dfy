/** Serving the revocation feed in signed pages bounded in entries and bytes. */
module RevocationFeed {
  import opened Codec

  const MaxEntries: nat := 256
  const MaxBytes: nat := 3 * 1024 * 1024

  /** A signed entry with its JSON encoding. */
  datatype Entry = Entry(seqno: nat, json: string)

  /** The feed in order of sequence numbers. */
  predicate Ordered(feed: seq<Entry>) {
    forall i, j :: 0 <= i < j < |feed| ==> feed[i].seqno < feed[j].seqno
  }

  function After(feed: seq<Entry>, since: nat): seq<Entry> {
    if feed == [] then []
    else After(feed[..|feed| - 1], since) + if feed[|feed| - 1].seqno > since then [feed[|feed| - 1]] else []
  }

  function Joined(entries: seq<Entry>): string {
    if entries == [] then ""
    else if |entries| == 1 then entries[0].json
    else Joined(entries[..|entries| - 1]) + "," + entries[|entries| - 1].json
  }

  /** The page's JSON. */
  function Encode(entries: seq<Entry>, hasMore: bool): string {
    "{\"entries\":[" + Joined(entries) + "],\"has_more\":" + (if hasMore then "true" else "false") + "}"
  }

  datatype Response = Page(entries: seq<Entry>, hasMore: bool) | TooLarge

  predicate FitsAlone(e: Entry) {
    31 + |e.json| <= MaxBytes
  }

  /** The store's page: the first `limit` entries after `since`, and whether there are more. */
  function PageAfter(feed: seq<Entry>, since: nat, limit: nat): (seq<Entry>, bool) {
    var rest := After(feed, since);
    if |rest| > limit then (rest[..limit], true) else (rest, false)
  }

  /** serveRevocations: as many of the store's entries as fit, in order. The running count is the exact
      size of the page if nothing is left out, one byte more if something is, so the final size check
      never fires. */
  method ServePage(feed: seq<Entry>, since: nat, limit: nat) returns (r: Response)
    requires 1 <= limit <= MaxEntries
    ensures r.Page? ==> r.entries <= After(feed, since) && |r.entries| <= limit
    ensures r.Page? ==> |Encode(r.entries, r.hasMore)| <= 3 * 1024 * 1024
    ensures r.Page? ==> (r.hasMore <==> |r.entries| < |After(feed, since)|)
    ensures r.Page? && |r.entries| < limit && r.hasMore ==>
              |Encode(r.entries + [After(feed, since)[|r.entries|]], false)| > 3 * 1024 * 1024
    ensures r.TooLarge? <==> After(feed, since) != [] && !FitsAlone(After(feed, since)[0])
    ensures r.Page? && After(feed, since) != [] ==> r.entries != []
  {
    hide Encode, Joined, After;
    var (events, hasMore) := PageAfter(feed, since, limit);
    ghost var rest := After(feed, since);
    var pageBytes := |"{\"entries\":[],\"has_more\":false}"|;
    var entries: seq<Entry> := [];
    var i := 0;
    EmptyPage();
    while i < |events|
      invariant 0 <= i <= |events| && entries == events[..i] && events <= rest
      invariant pageBytes == |Encode(entries, false)| <= MaxBytes
      invariant i > 0 ==> FitsAlone(events[0])
    {
      var separatorBytes := if |entries| > 0 then 1 else 0;
      EncodeGrows(entries, events[i]);
      if pageBytes + separatorBytes + |events[i].json| > MaxBytes {
        if entries == [] {
          return TooLarge;
        }
        hasMore := true;
        break;
      }
      entries := entries + [events[i]];
      pageBytes := pageBytes + separatorBytes + |events[i].json|;
      i := i + 1;
    }
    MoreIsShorter(entries);
    r := Page(entries, hasMore);
  }

  lemma EncodeGrows(entries: seq<Entry>, e: Entry)
    ensures |Encode(entries + [e], false)| == |Encode(entries, false)| + (if entries == [] then 0 else 1) + |e.json|
  {
    assert (entries + [e])[..|entries|] == entries;
  }

  lemma EmptyPage()
    ensures |Encode([], false)| == |"{\"entries\":[],\"has_more\":false}"| == 31
  {
  }

  /** An entry fits alone exactly if the page of it alone is not too long. */
  lemma FitsAloneMeans(e: Entry)
    ensures FitsAlone(e) <==> |Encode([e], false)| <= 3 * 1024 * 1024
  {
    EmptyPage();
    EncodeGrows([], e);
    assert [] + [e] == [e];
  }

  lemma MoreIsShorter(entries: seq<Entry>)
    ensures |Encode(entries, true)| + 1 == |Encode(entries, false)|
  {
  }

  // ------------------------------------------------------------------ what comes after a number

  function LastSeq(entries: seq<Entry>, otherwise: nat): nat {
    if entries == [] then otherwise else entries[|entries| - 1].seqno
  }

  /** In an ordered feed what comes after a number is a suffix. */
  lemma {:induction false} AfterIsSuffix(feed: seq<Entry>, since: nat) returns (k: nat)
    requires Ordered(feed)
    ensures k <= |feed| && After(feed, since) == feed[k..]
    ensures forall i :: 0 <= i < |feed| ==> (feed[i].seqno > since <==> k <= i)
  {
    if feed == [] {
      k := 0;
    } else {
      var front, last := feed[..|feed| - 1], feed[|feed| - 1];
      k := AfterIsSuffix(front, since);
      assert forall i :: 0 <= i < |front| ==> front[i] == feed[i];
      if last.seqno > since {
        assert feed[k..] == front[k..] + [last];
      } else {
        assert forall i :: 0 <= i < |front| ==> front[i].seqno < last.seqno;
        assert k == |front|;
        k := |feed|;
      }
    }
  }

  /** Moving the cursor to the end of a page takes exactly the page off what is to come. */
  lemma CursorSkipsPage(feed: seq<Entry>, since: nat, page: seq<Entry>)
    requires Ordered(feed) && page <= After(feed, since) && page != []
    ensures page + After(feed, LastSeq(page, since)) == After(feed, since)
  {
    var a := AfterIsSuffix(feed, since);
    var last := LastSeq(page, since);
    var b := AfterIsSuffix(feed, last);
    var n := |page|;
    hide After;
    assert page[n - 1] == feed[a..][n - 1] == feed[a + n - 1];
    assert b > a + n - 1;
    assert a + n < |feed| ==> feed[a + n].seqno > last;
    assert b == a + n;
    assert page == feed[a..][..n] == feed[a..a + n];
    assert feed[a..] == feed[a..a + n] + feed[a + n..];
  }

  // ------------------------------------------------------------------ query parameters

  /** parseRevocationPageInt: what is accepted is the default, or the one value given if it is in range. */
  function ParsePageInt(values: seq<string>, default: int, min: int, max: int): (r: Option<int>)
    ensures r.Some? ==> (values == [] && r.value == default) || (|values| == 1 && min <= r.value <= max)
  {
    if values == [] then Some(default)
    else if |values| != 1 || values[0] == "" then None
    else
      match Atoi(values[0])
      case None => None
      case Some(n) => if n < min || n > max then None else Some(n)
  }

  /** A number a consumer writes into its query is read as that number exactly if it is in range. */
  lemma QueryIsReadBack(n: int, default: int, min: int, max: int)
    requires MinInt <= n <= MaxInt
    ensures ParsePageInt([Itoa(n)], default, min, max) == if min <= n <= max then Some(n) else None
  {
    TrimSpaceOfItoa(n);
    AsIntOfIntID(n);
    ItoaHead(n);
  }

  /** What is accepted: the default when nothing is given, else the number that the one value spells, if it is in
      range. */
  lemma ParsePageIntMeans(values: seq<string>, default: int, min: int, max: int, n: int)
    ensures ParsePageInt(values, default, min, max) == Some(n) <==>
              || (values == [] && n == default)
              || (|values| == 1 && min <= n <= max && MinInt <= n <= MaxInt && Spells(values[0], n))
  {
    if |values| == 1 {
      AtoiMeans(values[0], n);
      EmptySpellsNothing(n);
    }
    hide Spells, Atoi;
  }

  lemma EmptySpellsNothing(n: int)
    ensures !Spells("", n)
  {
    if Spells("", n) {
      SpelledHasNoBlanks("", n);
    }
  }
}
