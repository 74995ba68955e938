/**
 * The pure helpers of the utilities file: the admin test, the one-line
 * summary of a descriptor, and pagination.
 */
module Utils {
  import opened Wrappers
  import opened PyText
  import opened Model
  import Forwarding

  /** `user_id == config.get('admin_id')`: a configuration without an admin has none. */
  predicate IsAdmin(user: UserId, cfg: Config) {
    cfg.adminId == Some(user)
  }

  /** The admin is never among the chats a descriptor is forwarded to. */
  lemma AdminNeverForwardedTo(user: UserId, cfg: Config, d: Descriptor)
    requires IsAdmin(user, cfg)
    ensures user !in Forwarding.Resolve(cfg, d)
  {
    Forwarding.ResolveExcludes(cfg, d);
  }

  // ---------------------------------------------------------------------
  // format_message_info

  const AllDestinationsText := "Todos"
  const ListPrefix := "Lista: "

  /** `"Todos"` when dest_all is absent or true, else `"Lista: "` and dest_list, or 'N/A' without one. */
  function DestinationText(d: Descriptor): (r: string)
    ensures r == AllDestinationsText <==> d.destAll.GetOr(true)
    ensures !d.destAll.GetOr(true) ==> |r| >= |ListPrefix| && r[..|ListPrefix|] == ListPrefix
  {
    if d.destAll.GetOr(true) then AllDestinationsText
    else
      var r := ListPrefix + d.destList.GetOr("N/A");
      assert r[0] != AllDestinationsText[0];
      r
  }

  /** What the summary says is what the forwarder does: "Todos" exactly when every configured destination is used. */
  lemma DestinationTextMatchesForwarder(cfg: Config, d: Descriptor)
    ensures DestinationText(d) == AllDestinationsText ==> Forwarding.Resolve(cfg, d) == Forwarding.Keep(cfg, Destinations(cfg))
    ensures DestinationText(d) != AllDestinationsText && d.destList.Some? && d.destList.value != "" ==>
      if d.destList.value in NamedLists(cfg) then Forwarding.Resolve(cfg, d) == Forwarding.Keep(cfg, NamedLists(cfg)[d.destList.value])
      else Forwarding.Resolve(cfg, d) == []
  {
  }

  /** `f"{index + 1}. ID: {message_id} ({interval}s) → {dest_info}"`, interval from intervalo_segundos (3600 by default). */
  function FormatMessageInfo(d: Descriptor, index: int): string {
    Show(index + 1) + ". ID: " + Show(d.messageId) + " (" + Show(d.intervalSeconds.GetOr(3600)) + "s) → " + DestinationText(d)
  }

  /** The line opens with the 1-based position, which int() reads back, followed by ". ID: " and the message id. */
  lemma FormatOpensWithPosition(d: Descriptor, index: int)
    ensures var r := FormatMessageInfo(d, index);
      var n := |Show(index + 1)|;
      n < |r| && ParseInt(r[..n]) == Some(index + 1) &&
      r[n..] == ". ID: " + Show(d.messageId) + " (" + Show(d.intervalSeconds.GetOr(3600)) + "s) → " + DestinationText(d)
  {
    var head := Show(index + 1);
    var rest := ". ID: " + Show(d.messageId) + " (" + Show(d.intervalSeconds.GetOr(3600)) + "s) → " + DestinationText(d);
    assert FormatMessageInfo(d, index) == head + rest;
    HeadAndRest(head, rest);
    ParseShown(index + 1);
  }

  lemma HeadAndRest(head: string, rest: string)
    ensures (head + rest)[..|head|] == head && (head + rest)[|head|..] == rest
  {
  }

  /** The line closes with the destination text. */
  lemma FormatClosesWithDestination(d: Descriptor, index: int)
    ensures var r := FormatMessageInfo(d, index);
      var t := DestinationText(d);
      |t| <= |r| && r[|r| - |t|..] == t
  {
    var t := DestinationText(d);
    var head := Show(index + 1) + ". ID: " + Show(d.messageId) + " (" + Show(d.intervalSeconds.GetOr(3600)) + "s) → ";
    assert FormatMessageInfo(d, index) == head + t;
  }

  // ---------------------------------------------------------------------
  // paginate_list

  /** Python's clamping of one slice bound to 0..len. */
  function SliceBound(x: int, len: nat): (b: nat)
    ensures b <= len
    ensures 0 <= x <= len ==> b == x
  {
    if x < 0 then (if x + len < 0 then 0 else x + len) else if x > len then len else x
  }

  /** `items[start:end]` with Python's rules for negative and out-of-range bounds. */
  function PySlice<T>(items: seq<T>, start: int, end: int): seq<T> {
    var lo := SliceBound(start, |items|);
    var hi := SliceBound(end, |items|);
    if lo < hi then items[lo..hi] else []
  }

  /** paginate_list: the page `items[page*k : page*k + k]` and whether anything follows it. */
  function Paginate<T>(items: seq<T>, page: int, k: int): (seq<T>, bool) {
    (PySlice(items, page * k, page * k + k), |items| > page * k + k)
  }

  /** For a page number and a page size that are not negative, the page holds the next min(k, len - page*k) items in order. */
  lemma PageContents<T>(items: seq<T>, page: nat, k: nat)
    ensures var (p, more) := Paginate(items, page, k);
      var start := page * k;
      |p| == (if start >= |items| then 0 else if |items| - start < k then |items| - start else k) &&
      (forall j :: 0 <= j < |p| ==> p[j] == items[start + j]) &&
      (more <==> start + k < |items|)
  {
    var start := page * k;
    assert start >= 0;
  }

  /** A page says more follows exactly when the next page is not empty. */
  lemma MoreMeansNextPage<T>(items: seq<T>, page: nat, k: nat)
    requires k > 0
    ensures Paginate(items, page, k).1 <==> |Paginate(items, page + 1, k).0| > 0
  {
    PageContents(items, page, k);
    PageContents(items, page + 1, k);
    assert (page + 1) * k == page * k + k;
  }

  /** The first n pages, laid end to end, are the first min(n*k, len) items: pages lose and reorder nothing. */
  lemma {:induction false} PagesCover<T>(items: seq<T>, n: nat, k: nat)
    ensures Pages(items, n, k) == items[..if n * k < |items| then n * k else |items|]
  {
    if n > 0 {
      var start := (n - 1) * k;
      NextStart(n, k);
      var prev := if start < |items| then start else |items|;
      var here := if start + k < |items| then start + k else |items|;
      calc {
        Pages(items, n, k);
        Pages(items, n - 1, k) + Paginate(items, n - 1, k).0;
        { PagesCover(items, n - 1, k); Window(items, start, k); }
        items[..prev] + items[prev..here];
        { JoinPrefix(items, prev, here); }
        items[..here];
      }
    }
  }

  lemma JoinPrefix<T>(items: seq<T>, i: nat, j: nat)
    requires i <= j <= |items|
    ensures items[..i] + items[i..j] == items[..j]
  {
  }

  lemma NextStart(n: nat, k: nat)
    requires n > 0
    ensures (n - 1) * k >= 0 && (n - 1) * k + k == n * k
  {
  }

  /** A window of k items from `start`, cut off at the end of the list. */
  lemma Window<T>(items: seq<T>, start: nat, k: nat)
    ensures PySlice(items, start, start + k) ==
      items[(if start < |items| then start else |items|)..(if start + k < |items| then start + k else |items|)]
  {
  }

  /** Pages 0 to n-1 concatenated. */
  function Pages<T>(items: seq<T>, n: nat, k: nat): seq<T> {
    if n == 0 then [] else Pages(items, n - 1, k) + Paginate(items, n - 1, k).0
  }
}
