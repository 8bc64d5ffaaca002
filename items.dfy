/** The archive item records the job reads: JSON objects returned by the Omeka S items API. */
module Items {
  import opened Wrappers

  /** One entry of a list-valued property: a JSON object whose "@value" key may be absent. */
  datatype Entry = Entry(value: Option<string>)

  /**
   * An item. `title` and `id` are the "o:title" and "o:id" keys (None when absent; the id as
   * it prints), `properties` holds the list-valued keys such as "dcterms:description", and
   * `thumbnails` is the "thumbnail_display_urls" object (empty when absent).
   */
  datatype Item = Item(
    title: Option<string>,
    id: Option<string>,
    properties: map<string, seq<Entry>>,
    thumbnails: map<string, string>)

  /** `item.get(field, [])`. */
  function Property(item: Item, field: string): (entries: seq<Entry>)
    ensures field !in item.properties ==> entries == []
  {
    if field in item.properties then item.properties[field] else []
  }

  /** `entries[0].get('@value', '')`. */
  function FirstValue(entries: seq<Entry>): string
    requires |entries| > 0
  {
    entries[0].value.GetOr("")
  }

  /** `thumbnail_urls.get(size)`. */
  function ThumbnailUrl(item: Item, size: string): Option<string> {
    if size in item.thumbnails then Some(item.thumbnails[size]) else None
  }

  /** Python truthiness of an optional string: present and non-empty. */
  predicate Truthy(s: Option<string>) {
    s.Some? && s.value != ""
  }
}
