/**
 * The Discord notifier (discord_notifier.py): the per-item lookups that shape an embed
 * (thumbnail, description, format), the split of the item list into messages of at most
 * nine items, the header footer of each message, and the sender that posts the messages
 * one after another with a pause in between.
 *
 * The pure lookups are functions. `GetItemDescription` and `GetItemFormat` keep the
 * source's search loops and are proved equal to the functions. `Plan` says which messages
 * a run should post; `DiscordNotifier.SendNotification` is the source's sending loop,
 * proved to leave on its log a prefix of that plan, interleaved with pauses (`Trace`).
 */
module Notifier {
  import opened Wrappers
  import opened Items
  import opened Decimal

  function Min(a: int, b: int): int {
    if a <= b then a else b
  }

  // ---------------------------------------------------------------------------
  // Thumbnail: medium, else large, else small

  const ThumbnailSizes: seq<string> := ["medium", "large", "small"]

  /**
   * `medium or large or small` over "thumbnail_display_urls": the first non-empty URL in
   * that order. When none is non-empty, Python's `or` yields the last operand, the small
   * URL as it stands (absent or ''); the result is None when the object is absent or empty.
   */
  function Thumbnail(item: Item): (r: Option<string>)
    ensures item.thumbnails == map[] ==> r == None
    ensures item.thumbnails != map[] && Truthy(ThumbnailUrl(item, "medium")) ==> r == ThumbnailUrl(item, "medium")
    ensures item.thumbnails != map[] && !Truthy(ThumbnailUrl(item, "medium")) && Truthy(ThumbnailUrl(item, "large")) ==>
      r == ThumbnailUrl(item, "large")
    ensures item.thumbnails != map[] && !Truthy(ThumbnailUrl(item, "medium")) && !Truthy(ThumbnailUrl(item, "large")) ==>
      r == ThumbnailUrl(item, "small")
  {
    if item.thumbnails == map[] then None
    else if Truthy(ThumbnailUrl(item, "medium")) then ThumbnailUrl(item, "medium")
    else if Truthy(ThumbnailUrl(item, "large")) then ThumbnailUrl(item, "large")
    else ThumbnailUrl(item, "small")
  }

  /** A usable thumbnail exists exactly when one of the three sizes has one, and it is the first such size's. */
  lemma ThumbnailPreference(item: Item)
    ensures Truthy(Thumbnail(item)) <==>
      exists i :: 0 <= i < |ThumbnailSizes| && Truthy(ThumbnailUrl(item, ThumbnailSizes[i]))
    ensures forall i :: (0 <= i < |ThumbnailSizes| && Truthy(ThumbnailUrl(item, ThumbnailSizes[i])) &&
      forall j :: 0 <= j < i ==> !Truthy(ThumbnailUrl(item, ThumbnailSizes[j]))) ==>
        Thumbnail(item) == ThumbnailUrl(item, ThumbnailSizes[i])
  {
    assert ThumbnailSizes[0] == "medium" && ThumbnailSizes[1] == "large" && ThumbnailSizes[2] == "small";
    if Truthy(ThumbnailUrl(item, "medium")) || Truthy(ThumbnailUrl(item, "large")) || Truthy(ThumbnailUrl(item, "small")) {
      assert item.thumbnails != map[];
    }
  }

  // ---------------------------------------------------------------------------
  // Description: first non-empty value among three fields, truncated

  const MaxDescriptionLength: nat := 200
  const NoDescription: string := "No description available"
  const DescriptionFields: seq<string> := ["dcterms:description", "bibo:content", "o:description"]

  /** A value longer than `maxLength` is cut to its first `maxLength` characters plus "...". */
  function Truncate(s: string, maxLength: nat): (r: string)
    ensures |r| <= maxLength + 3
    ensures |s| <= maxLength ==> r == s
    ensures |s| > maxLength ==> |r| == maxLength + 3 && r[..maxLength] == s[..maxLength] && r[maxLength..] == "..."
  {
    if |s| > maxLength then s[..maxLength] + "..." else s
  }

  /** Field `field` holds a list whose first entry has a non-empty "@value". */
  predicate HasText(item: Item, field: string) {
    |Property(item, field)| > 0 && FirstValue(Property(item, field)) != ""
  }

  /** The untruncated description: the first entry's value of the first field that has text. */
  function DescriptionSource(item: Item, fields: seq<string>): (r: Option<string>)
    ensures r.Some? ==> r.value != ""
    decreases |fields|
  {
    if fields == [] then None
    else if HasText(item, fields[0]) then Some(FirstValue(Property(item, fields[0])))
    else DescriptionSource(item, fields[1..])
  }

  /** The search finds exactly the first field with text, and nothing when no field has text. */
  lemma {:induction false} DescriptionSourceFirst(item: Item, fields: seq<string>)
    ensures (forall i :: 0 <= i < |fields| ==> !HasText(item, fields[i])) ==> DescriptionSource(item, fields) == None
    ensures forall i :: (0 <= i < |fields| && HasText(item, fields[i]) &&
      forall j :: 0 <= j < i ==> !HasText(item, fields[j])) ==>
        DescriptionSource(item, fields) == Some(FirstValue(Property(item, fields[i])))
    decreases |fields|
  {
    if fields != [] && !HasText(item, fields[0]) {
      DescriptionSourceFirst(item, fields[1..]);
      forall i | 0 <= i < |fields| && HasText(item, fields[i]) && (forall j :: 0 <= j < i ==> !HasText(item, fields[j]))
        ensures DescriptionSource(item, fields) == Some(FirstValue(Property(item, fields[i])))
      {
        assert fields[1..][i - 1] == fields[i];
        forall j | 0 <= j < i - 1 ensures !HasText(item, fields[1..][j]) {
          assert fields[1..][j] == fields[j + 1];
        }
      }
      if forall i :: 0 <= i < |fields| ==> !HasText(item, fields[i]) {
        forall i | 0 <= i < |fields| - 1 ensures !HasText(item, fields[1..][i]) {
          assert fields[1..][i] == fields[i + 1];
        }
      }
    }
  }

  /** The first entry of a list, or nothing: all that the description and format lookups read. */
  function Head(entries: seq<Entry>): seq<Entry> {
    if entries == [] then [] else entries[..1]
  }

  /** Only entry [0] of each field is consulted: items that agree on those agree on the description. */
  lemma {:induction false} DescriptionReadsOnlyFirstEntries(a: Item, b: Item, fields: seq<string>)
    requires forall i :: 0 <= i < |fields| ==> Head(Property(a, fields[i])) == Head(Property(b, fields[i]))
    ensures DescriptionSource(a, fields) == DescriptionSource(b, fields)
    decreases |fields|
  {
    if fields != [] {
      assert Head(Property(a, fields[0])) == Head(Property(b, fields[0]));
      if |Property(a, fields[0])| > 0 {
        assert Property(a, fields[0])[0] == Head(Property(a, fields[0]))[0];
        assert Property(b, fields[0])[0] == Head(Property(b, fields[0]))[0];
      }
      forall i | 0 <= i < |fields| - 1 ensures Head(Property(a, fields[1..][i])) == Head(Property(b, fields[1..][i])) {
        assert fields[1..][i] == fields[i + 1];
      }
      DescriptionReadsOnlyFirstEntries(a, b, fields[1..]);
    }
  }

  /** The embed description: the truncated source value, or the fixed fallback text. */
  function Description(item: Item, maxLength: nat): (r: string)
    ensures r != ""
    ensures r == NoDescription || |r| <= maxLength + 3
  {
    match DescriptionSource(item, DescriptionFields)
    case Some(v) => Truncate(v, maxLength)
    case None => NoDescription
  }

  /** The description is taken from the first of the three fields with text, else the fallback. */
  lemma DescriptionSpec(item: Item, maxLength: nat)
    ensures (forall i :: 0 <= i < |DescriptionFields| ==> !HasText(item, DescriptionFields[i])) ==>
      Description(item, maxLength) == NoDescription
    ensures forall i :: (0 <= i < |DescriptionFields| && HasText(item, DescriptionFields[i]) &&
      forall j :: 0 <= j < i ==> !HasText(item, DescriptionFields[j])) ==>
        Description(item, maxLength) == Truncate(FirstValue(Property(item, DescriptionFields[i])), maxLength)
  {
  }

  /** The source's lookup: dcterms:description inline, then a loop over the alternative fields. */
  method GetItemDescription(item: Item, maxLength: nat) returns (r: string)
    ensures r == Description(item, maxLength)
  {
    var description := Property(item, "dcterms:description");
    if |description| > 0 {
      var descValue := FirstValue(description);
      if descValue != "" {
        if |descValue| > maxLength {
          return descValue[..maxLength] + "...";
        }
        return descValue;
      }
    }
    var altFields := ["bibo:content", "o:description"];
    assert DescriptionFields[1..] == altFields;
    for k := 0 to |altFields|
      invariant DescriptionSource(item, DescriptionFields) == DescriptionSource(item, altFields[k..])
    {
      assert altFields[k..][1..] == altFields[k + 1..];
      var desc := Property(item, altFields[k]);
      if |desc| > 0 {
        var descValue := FirstValue(desc);
        if descValue != "" {
          if |descValue| > maxLength {
            return descValue[..maxLength] + "...";
          }
          return descValue;
        }
      }
    }
    return NoDescription;
  }

  // ---------------------------------------------------------------------------
  // Format: first non-empty list among three fields, whatever its value

  const FormatFields: seq<string> := ["dcterms:format", "dcterms:type", "o:media_type"]

  /**
   * The first entry's value of the first field holding a non-empty list. Unlike the
   * description, an empty value still ends the search.
   */
  function FormatSource(item: Item, fields: seq<string>): (r: Option<string>)
    ensures r.None? ==> forall i :: 0 <= i < |fields| ==> Property(item, fields[i]) == []
    decreases |fields|
  {
    if fields == [] then None
    else if |Property(item, fields[0])| > 0 then Some(FirstValue(Property(item, fields[0])))
    else FormatSource(item, fields[1..])
  }

  /** Field `field` holds a non-empty list. */
  predicate HasList(item: Item, field: string) {
    |Property(item, field)| > 0
  }

  /** The search stops at the first non-empty list, and finds nothing only when every list is empty. */
  lemma {:induction false} FormatSourceFirst(item: Item, fields: seq<string>)
    ensures (forall i :: 0 <= i < |fields| ==> !HasList(item, fields[i])) ==> FormatSource(item, fields) == None
    ensures forall i :: (0 <= i < |fields| && HasList(item, fields[i]) &&
      forall j :: 0 <= j < i ==> !HasList(item, fields[j])) ==>
        FormatSource(item, fields) == Some(FirstValue(Property(item, fields[i])))
    decreases |fields|
  {
    if fields != [] && !HasList(item, fields[0]) {
      FormatSourceFirst(item, fields[1..]);
      forall i | 0 <= i < |fields| && HasList(item, fields[i]) && (forall j :: 0 <= j < i ==> !HasList(item, fields[j]))
        ensures FormatSource(item, fields) == Some(FirstValue(Property(item, fields[i])))
      {
        assert fields[1..][i - 1] == fields[i];
        forall j | 0 <= j < i - 1 ensures !HasList(item, fields[1..][j]) {
          assert fields[1..][j] == fields[j + 1];
        }
      }
      if forall i :: 0 <= i < |fields| ==> !HasList(item, fields[i]) {
        forall i | 0 <= i < |fields| - 1 ensures !HasList(item, fields[1..][i]) {
          assert fields[1..][i] == fields[i + 1];
        }
      }
    }
  }

  function Format(item: Item): Option<string> {
    FormatSource(item, FormatFields)
  }

  /**
   * The two fall-through rules differ: a dcterms:format entry with an empty value yields
   * '' although dcterms:type has a value, while an empty dcterms:description value passes
   * on to bibo:content.
   */
  lemma FormatStopsWhereDescriptionGoesOn()
    ensures var item := Item(None, None,
        map["dcterms:format" := [Entry(Some(""))], "dcterms:type" := [Entry(Some("Image"))],
            "dcterms:description" := [Entry(Some(""))], "bibo:content" := [Entry(Some("Scan"))]],
        map[]);
      Format(item) == Some("") && Description(item, MaxDescriptionLength) == "Scan"
  {
  }

  /** The source's lookup: dcterms:format inline, then a loop over the alternative fields. */
  method GetItemFormat(item: Item) returns (r: Option<string>)
    ensures r == Format(item)
  {
    var formatInfo := Property(item, "dcterms:format");
    if |formatInfo| > 0 {
      return Some(FirstValue(formatInfo));
    }
    var altFields := ["dcterms:type", "o:media_type"];
    assert FormatFields[1..] == altFields;
    for k := 0 to |altFields|
      invariant Format(item) == FormatSource(item, altFields[k..])
    {
      assert altFields[k..][1..] == altFields[k + 1..];
      formatInfo := Property(item, altFields[k]);
      if |formatInfo| > 0 {
        return Some(FirstValue(formatInfo));
      }
    }
    return None;
  }

  // ---------------------------------------------------------------------------
  // Embeds

  /** A Discord embed as far as this job fills it in (the colour is always blue and left out). */
  datatype Embed = Embed(
    title: string,
    url: string,
    description: Option<string>,
    footer: Option<string>,
    thumbnail: Option<string>)

  const ArchiveTitle: string := "Recently added items in our Archive"
  const ArchiveUrl: string := "https://archive.hitsave.org"
  const ArkPrefix: string := "https://archive.hitsave.org/ark:/78322/"

  /** The embed of one item. */
  function ItemEmbed(item: Item): (e: Embed)
    ensures e.title == item.title.GetOr("Untitled")
    ensures |e.url| >= |ArkPrefix| && e.url[..|ArkPrefix|] == ArkPrefix
    ensures e.url[|ArkPrefix|..] == item.id.GetOr("Unknown ID")
    ensures e.description == Some(Description(item, MaxDescriptionLength))
    ensures e.footer.Some? <==> Truthy(Format(item))
    ensures e.footer.Some? ==> e.footer == Format(item) && e.footer.value != ""
    ensures e.thumbnail.Some? <==> Truthy(Thumbnail(item))
    ensures e.thumbnail.Some? ==> e.thumbnail == Thumbnail(item) && e.thumbnail.value != ""
  {
    Embed(
      item.title.GetOr("Untitled"),
      ArkPrefix + item.id.GetOr("Unknown ID"),
      Some(Description(item, MaxDescriptionLength)),
      if Truthy(Format(item)) then Format(item) else None,
      if Truthy(Thumbnail(item)) then Thumbnail(item) else None)
  }

  function ItemEmbeds(chunk: seq<Item>): (es: seq<Embed>)
    ensures |es| == |chunk|
    ensures forall j :: 0 <= j < |chunk| ==> es[j] == ItemEmbed(chunk[j])
  {
    seq(|chunk|, j requires 0 <= j < |chunk| => ItemEmbed(chunk[j]))
  }

  // ---------------------------------------------------------------------------
  // Chunks of nine

  const ChunkSize: nat := 9

  /** `(len(items) + 8) // 9`. */
  function ChunkCount(n: nat): nat {
    (n + ChunkSize - 1) / ChunkSize
  }

  /** One message covers at most nine items: exactly one message when there are 1 to 9 items. */
  lemma SingleChunk(n: nat)
    ensures ChunkCount(n) == 1 <==> 1 <= n <= ChunkSize
    ensures ChunkCount(n) == 0 <==> n == 0
  {
  }

  /** `items[i:i+9]` for i = 0, 9, 18, ... */
  function Chunks<T>(s: seq<T>): (r: seq<seq<T>>)
    ensures |r| == ChunkCount(|s|)
    ensures forall k :: 0 <= k < |r| ==> 0 < |r[k]| <= ChunkSize
    decreases |s|
  {
    if |s| == 0 then []
    else if |s| <= ChunkSize then [s]
    else [s[..ChunkSize]] + Chunks(s[ChunkSize..])
  }

  function Flatten<T>(ss: seq<seq<T>>): seq<T>
    decreases |ss|
  {
    if ss == [] then [] else ss[0] + Flatten(ss[1..])
  }

  /** The first k chunks hold exactly the first 9k items. */
  lemma {:induction false} FlattenChunksPrefix<T>(s: seq<T>, k: nat)
    requires k <= ChunkCount(|s|)
    ensures Flatten(Chunks(s)[..k]) == s[..Min(ChunkSize * k, |s|)]
    decreases |s|
  {
    if k > 0 {
      var cs := Chunks(s);
      assert cs[..k][1..] == cs[1..][..k - 1];
      if |s| <= ChunkSize {
        assert k == 1;
        assert cs[1..][..0] == [];
      } else {
        assert cs[1..] == Chunks(s[ChunkSize..]);
        FlattenChunksPrefix(s[ChunkSize..], k - 1);
        assert s[..ChunkSize] + s[ChunkSize..][..Min(ChunkSize * (k - 1), |s| - ChunkSize)]
            == s[..Min(ChunkSize * k, |s|)];
      }
    }
  }

  /** The chunks concatenate back to the input, in order. */
  lemma FlattenChunks<T>(s: seq<T>)
    ensures Flatten(Chunks(s)) == s
  {
  }

  /** Chunk k is items[9k .. min(9k + 9, n)). */
  lemma {:induction false} ChunkAt<T>(s: seq<T>, k: nat)
    requires k < ChunkCount(|s|)
    ensures Chunks(s)[k] == s[ChunkSize * k .. Min(ChunkSize * k + ChunkSize, |s|)]
    decreases |s|
  {
    if k > 0 {
      ChunkAt(s[ChunkSize..], k - 1);
      assert s[ChunkSize..][ChunkSize * (k - 1) .. Min(ChunkSize * (k - 1) + ChunkSize, |s| - ChunkSize)]
          == s[ChunkSize * k .. Min(ChunkSize * k + ChunkSize, |s|)];
    }
  }

  // ---------------------------------------------------------------------------
  // Header footer

  /** What the header footer says: a count for a single message, a page and item range otherwise. */
  datatype Footer =
    | ItemCount(count: nat)
    | Page(number: nat, pages: nat, first: nat, last: nat, count: nat)

  /** The footer of the message starting at item index i of n items. */
  function FooterFor(n: nat, i: nat): Footer {
    var total := ChunkCount(n);
    if total == 1 then ItemCount(n)
    else Page(i / ChunkSize + 1, total, i + 1, Min(i + ChunkSize, n), n)
  }

  function FooterText(f: Footer): string {
    match f
    case ItemCount(n) =>
      if n == 1 then "1 new item found" else NatToString(n) + " new items found"
    case Page(k, total, first, last, n) =>
      "Message " + NatToString(k) + " of " + NatToString(total) + " - Items " + NatToString(first) +
      "-" + NatToString(last) + " of " + NatToString(n)
  }

  /**
   * The footer of message k tells the truth about its chunk: a single message counts all
   * items; otherwise it is message k+1 of all messages and names the 1-based positions of
   * the chunk's first and last items among all items.
   */
  lemma FooterDescribesChunk<T>(items: seq<T>, k: nat)
    requires k < ChunkCount(|items|)
    ensures FooterFor(|items|, ChunkSize * k).ItemCount? <==> |items| <= ChunkSize
    ensures FooterFor(|items|, ChunkSize * k).ItemCount? ==>
      FooterFor(|items|, ChunkSize * k).count == |items| == |Chunks(items)[k]|
    ensures FooterFor(|items|, ChunkSize * k).Page? ==>
      var f := FooterFor(|items|, ChunkSize * k);
      && f.number == k + 1 && f.pages == |Chunks(items)| && f.count == |items|
      && f.first == |Flatten(Chunks(items)[..k])| + 1
      && f.last == |Flatten(Chunks(items)[..k + 1])|
      && f.last - f.first + 1 == |Chunks(items)[k]|
  {
    FlattenChunksPrefix(items, k);
    FlattenChunksPrefix(items, k + 1);
    ChunkAt(items, k);
    if |items| <= ChunkSize {
      assert Chunks(items) == [items];
    }
  }

  /** The header embed of the message starting at item index i of n items. */
  function HeaderEmbed(n: nat, i: nat): (e: Embed)
    ensures e.title == ArchiveTitle && e.url == ArchiveUrl
    ensures e.description == None && e.thumbnail == None
    ensures e.footer == Some(FooterText(FooterFor(n, i)))
  {
    Embed(ArchiveTitle, ArchiveUrl, None, Some(FooterText(FooterFor(n, i))), None)
  }

  // ---------------------------------------------------------------------------
  // The planned messages

  /** Message k: the header, then one embed per item of chunk k. */
  function Plan(items: seq<Item>): (p: seq<seq<Embed>>)
    ensures |p| == ChunkCount(|items|)
  {
    var chunks := Chunks(items);
    seq(|chunks|, k requires 0 <= k < |chunks| => PlannedMessage(items, k))
  }

  function PlannedMessage(items: seq<Item>, k: nat): seq<Embed>
    requires k < ChunkCount(|items|)
  {
    [HeaderEmbed(|items|, ChunkSize * k)] + ItemEmbeds(Chunks(items)[k])
  }

  /** Message k is the header for index 9k followed by one embed per item of items[9k .. min(9k + 9, n)). */
  lemma PlanAt(items: seq<Item>, k: nat)
    requires k < ChunkCount(|items|)
    ensures Plan(items)[k] ==
      [HeaderEmbed(|items|, ChunkSize * k)] + ItemEmbeds(items[ChunkSize * k .. Min(ChunkSize * k + ChunkSize, |items|)])
  {
    ChunkAt(items, k);
  }

  /** No items, no message; otherwise (n+8)/9 messages, each a header and 1 to 9 item embeds. */
  lemma PlanShape(items: seq<Item>)
    ensures items == [] <==> Plan(items) == []
    ensures |Plan(items)| == (|items| + 8) / 9
    ensures forall k :: 0 <= k < |Plan(items)| ==>
      2 <= |Plan(items)[k]| <= 10 && Plan(items)[k][0] == HeaderEmbed(|items|, ChunkSize * k)
  {
  }

  /** The item embeds of all messages, headers dropped. */
  function Bodies(p: seq<seq<Embed>>): seq<Embed>
    decreases |p|
  {
    if p == [] then [] else (if p[0] == [] then [] else p[0][1..]) + Bodies(p[1..])
  }

  lemma ItemEmbedsAppend(a: seq<Item>, b: seq<Item>)
    ensures ItemEmbeds(a + b) == ItemEmbeds(a) + ItemEmbeds(b)
  {
  }

  lemma {:induction false} BodiesOfChunks(p: seq<seq<Embed>>, cs: seq<seq<Item>>)
    requires |p| == |cs|
    requires forall k :: 0 <= k < |p| ==> |p[k]| > 0 && p[k][1..] == ItemEmbeds(cs[k])
    ensures Bodies(p) == ItemEmbeds(Flatten(cs))
    decreases |p|
  {
    if p != [] {
      forall k | 0 <= k < |p| - 1 ensures |p[1..][k]| > 0 && p[1..][k][1..] == ItemEmbeds(cs[1..][k]) {
        assert p[1..][k] == p[k + 1] && cs[1..][k] == cs[k + 1];
      }
      BodiesOfChunks(p[1..], cs[1..]);
      ItemEmbedsAppend(cs[0], Flatten(cs[1..]));
    }
  }

  /** Every item gets exactly one embed, in input order, across all messages. */
  lemma PlanCoversItems(items: seq<Item>)
    ensures Bodies(Plan(items)) == ItemEmbeds(items)
  {
    var p, cs := Plan(items), Chunks(items);
    forall k | 0 <= k < |p| ensures |p[k]| > 0 && p[k][1..] == ItemEmbeds(cs[k]) {
      PlanAt(items, k);
      ChunkAt(items, k);
    }
    BodiesOfChunks(p, cs);
    FlattenChunks(items);
  }

  // ---------------------------------------------------------------------------
  // What the sender does

  /** What the channel sees: a message posted, or a one-second pause. */
  datatype Event = Sent(message: seq<Embed>) | Pause

  /** The events of a run that posted the first m planned messages: each but the very last is followed by a pause. */
  function Trace(plan: seq<seq<Embed>>, m: nat): seq<Event>
    requires m <= |plan|
  {
    if m == 0 then []
    else Trace(plan, m - 1) + [Sent(plan[m - 1])] + (if m < |plan| then [Pause] else [])
  }

  function SentMessages(log: seq<Event>): seq<seq<Embed>>
    decreases |log|
  {
    if log == [] then []
    else (if log[0].Sent? then [log[0].message] else []) + SentMessages(log[1..])
  }

  function PauseCount(log: seq<Event>): nat
    decreases |log|
  {
    if log == [] then 0 else (if log[0].Pause? then 1 else 0) + PauseCount(log[1..])
  }

  lemma {:induction false} SentMessagesAppend(a: seq<Event>, b: seq<Event>)
    ensures SentMessages(a + b) == SentMessages(a) + SentMessages(b)
    ensures PauseCount(a + b) == PauseCount(a) + PauseCount(b)
    decreases |a|
  {
    if a == [] {
      assert a + b == b;
    } else {
      assert (a + b)[0] == a[0];
      assert (a + b)[1..] == a[1..] + b;
      SentMessagesAppend(a[1..], b);
    }
  }

  /**
   * A run that posted m messages posted exactly the first m planned ones, and paused after
   * each of them except after the last planned message: N-1 pauses for a complete run.
   */
  lemma {:induction false} TraceCounts(plan: seq<seq<Embed>>, m: nat)
    requires m <= |plan|
    ensures SentMessages(Trace(plan, m)) == plan[..m]
    ensures PauseCount(Trace(plan, m)) == if m == |plan| && m > 0 then m - 1 else m
  {
    if m > 0 {
      TraceCounts(plan, m - 1);
      var tail: seq<Event> := if m < |plan| then [Pause] else [];
      SentMessagesAppend(Trace(plan, m - 1), [Sent(plan[m - 1])]);
      SentMessagesAppend(Trace(plan, m - 1) + [Sent(plan[m - 1])], tail);
      assert plan[..m - 1] + [plan[m - 1]] == plan[..m];
    }
  }

  /** Messages and pauses alternate: message k at position 2k, pauses at the odd positions. */
  lemma {:induction false} TraceLayout(plan: seq<seq<Embed>>, m: nat)
    requires m <= |plan|
    ensures |Trace(plan, m)| == if m == |plan| && m > 0 then 2 * m - 1 else 2 * m
    ensures forall k :: 0 <= k < m ==> Trace(plan, m)[2 * k] == Sent(plan[k])
    ensures forall p :: 0 <= p < |Trace(plan, m)| && p % 2 == 1 ==> Trace(plan, m)[p] == Pause
  {
    if m > 0 {
      TraceLayout(plan, m - 1);
    }
  }

  /** Posting message m (and pausing, unless it is the last) extends a log by one step of the trace. */
  lemma ExtendLog(prefix: seq<Event>, plan: seq<seq<Embed>>, m: nat)
    requires m < |plan|
    ensures m + 1 < |plan| ==> prefix + Trace(plan, m) + [Sent(plan[m])] + [Pause] == prefix + Trace(plan, m + 1)
    ensures m + 1 == |plan| ==> prefix + Trace(plan, m) + [Sent(plan[m])] == prefix + Trace(plan, m + 1)
  {
  }

  /** An aborted run left a prefix of what a complete run leaves. */
  lemma {:induction false} TraceIsPrefix(plan: seq<seq<Embed>>, m: nat)
    requires m <= |plan|
    ensures Trace(plan, m) <= Trace(plan, |plan|)
    decreases |plan| - m
  {
    if m < |plan| {
      TraceIsPrefix(plan, m + 1);
    }
  }

  /**
   * The header footer text, computed statement by statement as the if/else of
   * `send_notification` does for the chunk starting at index i; `FooterText(FooterFor(n, i))`
   * is the same text stated by what it says about the chunk.
   */
  method HeaderFooterText(n: nat, i: nat, total: nat) returns (footerText: string)
    requires total == ChunkCount(n)
    ensures footerText == FooterText(FooterFor(n, i))
  {
    var chunkNumber := i / ChunkSize + 1;
    if total == 1 {
      if n == 1 {
        footerText := "1 new item found";
      } else {
        footerText := NatToString(n) + " new items found";
      }
    } else {
      footerText := "Message " + NatToString(chunkNumber) + " of " + NatToString(total) +
        " - Items " + NatToString(i + 1) + "-" + NatToString(Min(i + ChunkSize, n)) + " of " + NatToString(n);
    }
  }

  /** One item's embed, as the inner loop of `send_notification` builds it. */
  method BuildItemEmbed(item: Item) returns (embed: Embed)
    ensures embed == ItemEmbed(item)
  {
    var title := item.title.GetOr("Untitled");
    var arkUrl := ArkPrefix + item.id.GetOr("Unknown ID");
    var description := GetItemDescription(item, MaxDescriptionLength);
    var formatInfo := GetItemFormat(item);
    var thumbnailUrl := Thumbnail(item);
    var footer := if Truthy(formatInfo) then formatInfo else None;
    var thumbnail := if Truthy(thumbnailUrl) then thumbnailUrl else None;
    embed := Embed(title, arkUrl, Some(description), footer, thumbnail);
  }

  /** Index arithmetic of the sending loop: i = 9d is in range exactly while d is a chunk number. */
  lemma ChunkIndex(n: nat, d: nat)
    ensures ChunkSize == 9 && (9 * d) / 9 == d && (9 * d) % 9 == 0
    ensures 9 * d < n <==> d < ChunkCount(n)
    ensures d <= ChunkCount(n) && 9 * d >= n ==> d == ChunkCount(n)
  {
  }

  /**
   * The message for the chunk starting at item index i, as the body of the sending loop
   * builds it: the header embed, then one embed per item of `items[i:i+9]`.
   */
  method BuildMessage(items: seq<Item>, i: nat) returns (message: seq<Embed>)
    requires i < |items| && i % 9 == 0
    ensures message == Plan(items)[i / 9]
  {
    var n := |items|;
    var total := (n + 8) / 9;
    var chunk := items[i..Min(i + 9, n)];
    var footerText := HeaderFooterText(n, i, total);
    // `discord.Embed(...)` and `set_footer`, which make the embed `HeaderEmbed` describes
    var header := Embed(ArchiveTitle, ArchiveUrl, None, Some(footerText), None);
    var embeds := [];
    for j := 0 to |chunk|
      invariant |embeds| == j
      invariant forall t :: 0 <= t < j ==> embeds[t] == ItemEmbed(chunk[t])
    {
      var embed := BuildItemEmbed(chunk[j]);
      embeds := embeds + [embed];
    }
    message := [header] + embeds;
    ghost var k := i / 9;
    assert i == ChunkSize * k;
    PlanAt(items, k);
    assert embeds == ItemEmbeds(chunk);
  }

  /**
   * The notifier as far as sending goes: `log` is everything the channel has received.
   * Connecting, the ready event and closing are not modelled.
   */
  class DiscordNotifier {
    var log: seq<Event>
    /** How many `channel.send` calls have raised: the "Failed to send" errors logged so far. */
    ghost var failedSends: nat

    constructor ()
      ensures log == [] && failedSends == 0
    {
      log := [];
      failedSends := 0;
    }

    /** `channel.send`: may raise, in which case nothing was posted. */
    method Send(message: seq<Embed>) returns (ok: bool)
      modifies this
      ensures log == if ok then old(log) + [Sent(message)] else old(log)
      ensures failedSends == if ok then old(failedSends) else old(failedSends) + 1
    {
      ok := *;
      if ok {
        log := log + [Sent(message)];
      } else {
        failedSends := failedSends + 1;
      }
    }

    /** `asyncio.sleep(1)`. */
    method Sleep()
      modifies this
      ensures log == old(log) + [Pause]
      ensures failedSends == old(failedSends)
    {
      log := log + [Pause];
    }

    /**
     * One step of the sending loop: post message `chunkNumber` of `total`, then pause unless
     * it was the last. On success the log has grown by one step of the trace.
     */
    method PostMessage(message: seq<Embed>, chunkNumber: nat, total: nat,
                       ghost prefix: seq<Event>, ghost plan: seq<seq<Embed>>, ghost m: nat) returns (ok: bool)
      requires m < |plan| && message == plan[m] && chunkNumber == m + 1 && total == |plan|
      requires log == prefix + Trace(plan, m)
      modifies this
      ensures ok ==> log == prefix + Trace(plan, m + 1) && failedSends == old(failedSends)
      ensures !ok ==> log == old(log) && failedSends == old(failedSends) + 1
    {
      ok := Send(message);
      if !ok {
        return;
      }
      if chunkNumber < total {
        Sleep();
      }
      ExtendLog(prefix, plan, m);
    }

    /**
     * Posts the planned messages in order, pausing between them; the first failed send
     * ends the loop. `delivered` is how many messages were posted: all of them unless a send
     * failed, and then exactly one send failed.
     */
    method SendNotification(items: seq<Item>) returns (delivered: nat)
      modifies this
      ensures delivered <= |Plan(items)|
      ensures log == old(log) + Trace(Plan(items), delivered)
      ensures failedSends == old(failedSends) + if delivered < |Plan(items)| then 1 else 0
    {
      if |items| == 0 {
        return 0;
      }
      var n := |items|;
      ghost var plan := Plan(items);
      var total := (n + 8) / 9;
      var i := 0;
      delivered := 0;
      while i < n
        invariant i == 9 * delivered
        invariant total == |plan| && delivered <= total
        invariant i < n ==> delivered < total
        invariant log == old(log) + Trace(plan, delivered)
        invariant failedSends == old(failedSends)
      {
        ChunkIndex(n, delivered);
        var message := BuildMessage(items, i);
        var ok := PostMessage(message, i / 9 + 1, total, old(log), plan, delivered);
        if !ok {
          return;
        }
        delivered := delivered + 1;
        i := i + 9;
        ChunkIndex(n, delivered);
      }
    }
  }
}
