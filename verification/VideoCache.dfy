/** The download cache (cache/video_cache.py): rows of JSON that either bot may have written,
    read back defensively. */
module VideoCache {
  import opened Common
  import opened PyText

  /** A parsed JSON document. */
  datatype Json =
    | JNull
    | JBool(b: bool)
    | JInt(i: int)
    | JFloat(r: real)
    | JStr(s: string)
    | JArray(items: seq<Json>)
    | JObject(fields: map<string, Json>)

  /** A column holds a JSON text, or something `json.loads` rejects (None). */
  datatype Row = Row(fileId: Option<Json>, meta: Option<Json>)

  datatype CachedItem = CachedItem(kind: string, duration: int, width: int, height: int,
                                   partIndex: int, partTotal: int, partLabel: Option<string>)

  datatype Chat = ChatId(id: int) | ChatName(name: string)

  /** `title` is handed on as it was read, whatever its JSON type. */
  datatype CacheEntry = CacheEntry(archiveChat: Chat, messageIds: seq<int>, title: Json, items: seq<CachedItem>,
                                   description: Option<string>, subtitleIds: seq<int>, subtitleNames: seq<string>)

  // ------------------------------------------------------------ writing

  function TextOrNull(s: Option<string>): Json { if s.Some? then JStr(s.value) else JNull }

  function ItemJson(item: CachedItem): Json {
    JObject(map[
      "kind" := JStr(item.kind), "duration" := JInt(item.duration), "width" := JInt(item.width),
      "height" := JInt(item.height), "part_index" := JInt(item.partIndex), "part_total" := JInt(item.partTotal),
      "part_label" := TextOrNull(item.partLabel)])
  }

  function ItemsJson(items: seq<CachedItem>): seq<Json> {
    seq(|items|, i requires 0 <= i < |items| => ItemJson(items[i]))
  }

  function IntsJson(ints: seq<int>): seq<Json> { seq(|ints|, i requires 0 <= i < |ints| => JInt(ints[i])) }

  function TextsJson(texts: seq<string>): seq<Json> { seq(|texts|, i requires 0 <= i < |texts| => JStr(texts[i])) }

  function ChatJson(c: Chat): Json { match c case ChatId(id) => JInt(id) case ChatName(name) => JStr(name) }

  function Encode(chat: Chat, messageIds: seq<int>, title: Option<string>, items: seq<CachedItem>,
                  description: Option<string>, subtitleIds: seq<int>, subtitleNames: seq<string>): Row
  {
    Row(Some(JObject(map["archive_chat" := ChatJson(chat), "message_ids" := JArray(IntsJson(messageIds))])),
        Some(JObject(map["title" := TextOrNull(title), "items" := JArray(ItemsJson(items)),
                         "description" := TextOrNull(description), "subtitle_ids" := JArray(IntsJson(subtitleIds)),
                         "subtitle_names" := JArray(TextsJson(subtitleNames))])))
  }

  // ------------------------------------------------------------ reading

  /** `d.get(key)`. */
  function Get(fields: map<string, Json>, key: string): Json { if key in fields then fields[key] else JNull }

  predicate Falsy(v: Json) {
    match v
    case JNull => true
    case JBool(b) => !b
    case JInt(i) => i == 0
    case JFloat(r) => r == 0.0
    case JStr(s) => s == ""
    case JArray(items) => items == []
    case JObject(fields) => fields == map[]
  }

  /** `isinstance(v, int)`: Python's booleans are integers. */
  function IntOf(v: Json): Option<int> {
    match v
    case JInt(i) => Some(i)
    case JBool(b) => Some(if b then 1 else 0)
    case _ => None
  }

  function Truncated(r: real): int { if r >= 0.0 then r.Floor else -((-r).Floor) }

  /** `int(v or 0)`; None when it raises `TypeError` or `ValueError`. */
  function IntField(v: Json): Option<int> {
    if Falsy(v) then Some(0)
    else
      match v
      case JStr(s) => ParseInt(s)
      case JFloat(r) => Some(Truncated(r))
      case _ => IntOf(v)
  }

  /** What a number of a stored row becomes: fractions are cut towards zero, anything that is
      missing or empty is 0, a text is read as `int` reads it, and the rest is unusable. */
  lemma NumbersOfARow(v: Json, n: int)
    ensures v == JNull || v == JStr("") || v == JArray([]) || v == JObject(map[]) ==> IntField(v) == Some(0)
    ensures v == JBool(false) || v == JFloat(0.0) ==> IntField(v) == Some(0)
    ensures v == JBool(true) ==> IntField(v) == Some(1) == IntOf(v)
    ensures IntField(JInt(n)) == Some(n) == IntOf(JInt(n)) && IntOf(JBool(false)) == Some(0)
    ensures v.JStr? && v.s != "" ==> IntField(v) == ParseInt(v.s)
    ensures v.JFloat? && v.r >= 0.0 ==> (IntField(v) == Some(n) <==> n as real <= v.r < n as real + 1.0)
    ensures v.JFloat? && v.r <= 0.0 ==> (IntField(v) == Some(n) <==> n as real - 1.0 < v.r <= n as real)
    ensures (v.JArray? && v.items != []) || (v.JObject? && v.fields != map[]) ==> IntField(v).None?
    ensures v.JNull? || v.JFloat? || v.JStr? || v.JArray? || v.JObject? ==> IntOf(v).None?
  {
    if v.JFloat? && v.r < 0.0 {
      var up := (-v.r).Floor;
      assert up as real <= -v.r < up as real + 1.0;
      assert IntField(v) == Some(-up);
      assert n as real - 1.0 < v.r <= n as real ==> n == -up;
    }
  }

  function Text(v: Json): Option<string> { if v.JStr? then Some(v.s) else None }

  /** `str(v or "video")`; `show` prints the values that are not strings. */
  function KindField(v: Json, show: Json -> string): string {
    if Falsy(v) then "video" else if v.JStr? then v.s else show(v)
  }

  function DecodeItem(entry: Json, show: Json -> string): Option<CachedItem> {
    if !entry.JObject? then None
    else
      var f := entry.fields;
      var d, w, h := IntField(Get(f, "duration")), IntField(Get(f, "width")), IntField(Get(f, "height"));
      var k, n := IntField(Get(f, "part_index")), IntField(Get(f, "part_total"));
      if d.None? || w.None? || h.None? || k.None? || n.None? then None
      else Some(CachedItem(KindField(Get(f, "kind"), show), d.value, w.value, h.value, k.value, n.value,
                           Text(Get(f, "part_label"))))
  }

  /** The loop of `_decode_items` as a function: None once an entry is unusable. */
  function DecodeAll(raw: seq<Json>, show: Json -> string): Option<seq<CachedItem>> {
    if raw == [] then Some([])
    else
      var rest := DecodeAll(raw[..|raw| - 1], show);
      var last := DecodeItem(raw[|raw| - 1], show);
      if rest.None? || last.None? then None else Some(rest.value + [last.value])
  }

  function DecodeItems(raw: Json, expected: nat, show: Json -> string): seq<CachedItem> {
    if !raw.JArray? || |raw.items| != expected then []
    else
      var all := DecodeAll(raw.items, show);
      if all.None? then [] else all.value
  }

  method DecodeItemList(raw: Json, expected: nat, show: Json -> string) returns (items: seq<CachedItem>)
    ensures items == DecodeItems(raw, expected, show)
  {
    if !raw.JArray? || |raw.items| != expected {
      return [];
    }
    items := [];
    for i := 0 to |raw.items|
      invariant DecodeAll(raw.items[..i], show) == Some(items)
    {
      assert raw.items[..i + 1][..i] == raw.items[..i];
      var item := DecodeItem(raw.items[i], show);
      if item.None? {
        BadEntry(raw.items, i, show);
        return [];
      }
      items := items + [item.value];
    }
    assert raw.items[..|raw.items|] == raw.items;
  }

  lemma {:induction false} BadEntry(raw: seq<Json>, i: nat, show: Json -> string)
    requires i < |raw| && DecodeItem(raw[i], show).None?
    ensures DecodeAll(raw, show).None?
  {
    if i < |raw| - 1 {
      BadEntry(raw[..|raw| - 1], i, show);
    }
  }

  function IntList(v: Json): seq<int> { if v.JArray? then Ints(v.items) else [] }

  function Ints(items: seq<Json>): seq<int> {
    if items == [] then []
    else
      var last := IntOf(items[|items| - 1]);
      Ints(items[..|items| - 1]) + if last.Some? then [last.value] else []
  }

  function Texts(items: seq<Json>): seq<string> {
    if items == [] then []
    else
      var last := items[|items| - 1];
      Texts(items[..|items| - 1]) + if last.JStr? then [last.s] else []
  }

  function ChatOf(v: Json): Option<Chat> {
    match v
    case JStr(s) => Some(ChatName(s))
    case JInt(i) => Some(ChatId(i))
    case _ => None
  }

  /** `[n for n in (value or []) if isinstance(n, str)]`: any value that cannot be iterated
      raises, and iterating a string or an object yields strings. */
  datatype Names = Names(names: seq<string>) | NotIterable

  function NamesOf(v: Json, keys: map<string, Json> -> seq<string>): Names {
    if Falsy(v) then Names([])
    else
      match v
      case JArray(items) => Names(Texts(items))
      case JStr(s) => Names(seq(|s|, i requires 0 <= i < |s| => [s[i]]))
      case JObject(fields) => Names(keys(fields))
      case _ => NotIterable
  }

  /** How the values outside this model print, and in which order an object lists its keys. */
  datatype Python = Python(show: Json -> string, keys: map<string, Json> -> seq<string>)

  datatype Decoded = Hit(entry: CacheEntry) | Miss | Raises

  /** `_decode_entry`. */
  function DecodeEntry(row: Row, py: Python): Decoded {
    if row.fileId.None? || row.meta.None? then Miss
    else if !row.fileId.value.JObject? then Miss
    else
      var payload := row.fileId.value.fields;
      var chat := ChatOf(Get(payload, "archive_chat"));
      var ids := Get(payload, "message_ids");
      if chat.None? || !ids.JArray? then Miss
      else if exists k :: 0 <= k < |ids.items| && IntOf(ids.items[k]).None? then Miss
      else
        var meta := if row.meta.value.JObject? then row.meta.value.fields else map[];
        var names := NamesOf(Get(meta, "subtitle_names"), py.keys);
        if names.NotIterable? then Raises
        else
          Hit(CacheEntry(chat.value, Ints(ids.items), Get(meta, "title"),
                         DecodeItems(Get(meta, "items"), |ids.items|, py.show), Text(Get(meta, "description")),
                         IntList(Get(meta, "subtitle_ids")), names.names))
  }

  // ------------------------------------------------------------ what reading guarantees

  lemma {:induction false} DecodeAllIs(raw: seq<Json>, show: Json -> string)
    ensures var all := DecodeAll(raw, show);
            && (all.Some? <==> forall k :: 0 <= k < |raw| ==> DecodeItem(raw[k], show).Some?)
            && (all.Some? ==> |all.value| == |raw|
                              && forall k :: 0 <= k < |raw| ==> DecodeItem(raw[k], show) == Some(all.value[k]))
  {
    hide DecodeItem;
    if raw != [] {
      var init := raw[..|raw| - 1];
      DecodeAllIs(init, show);
      assert forall k :: 0 <= k < |raw| - 1 ==> init[k] == raw[k];
    }
  }

  lemma {:induction false} IntsLength(items: seq<Json>)
    ensures |Ints(items)| <= |items|
    ensures (forall k :: 0 <= k < |items| ==> IntOf(items[k]).Some?) ==>
              |Ints(items)| == |items| && forall k :: 0 <= k < |items| ==> Some(Ints(items)[k]) == IntOf(items[k])
  {
    if items != [] {
      IntsLength(items[..|items| - 1]);
    }
  }

  /** Whatever a row holds, the items of a hit are either dropped altogether or stand one to
      one with its messages. */
  lemma ItemsAlignedOrDropped(row: Row, py: Python)
    requires DecodeEntry(row, py).Hit?
    ensures var e := DecodeEntry(row, py).entry; e.items == [] || |e.items| == |e.messageIds|
  {
    hide DecodeAll, NamesOf, Texts;
    var ids := Get(row.fileId.value.fields, "message_ids").items;
    IntsLength(ids);
    var meta := if row.meta.value.JObject? then row.meta.value.fields else map[];
    var raw := Get(meta, "items");
    if raw.JArray? {
      DecodeAllIs(raw.items, py.show);
    }
  }

  /** A row either bot could have written: a channel as a number or a name, and whole numbers
      for the messages. */
  predicate Readable(row: Row) {
    && row.fileId.Some? && row.meta.Some? && row.fileId.value.JObject?
    && (var chat := Get(row.fileId.value.fields, "archive_chat"); chat.JInt? || chat.JStr?)
    && (var ids := Get(row.fileId.value.fields, "message_ids");
        ids.JArray? && forall k :: 0 <= k < |ids.items| ==> ids.items[k].JInt? || ids.items[k].JBool?)
  }

  /** The one value the code does not check: subtitle names that cannot be iterated. */
  predicate NamesIterable(row: Row) {
    if row.meta.Some? && row.meta.value.JObject? then
      var names := Get(row.meta.value.fields, "subtitle_names");
      Falsy(names) || names.JArray? || names.JStr? || names.JObject?
    else true
  }

  /** What an entry says, in terms of the row it came from. */
  ghost predicate SaysRow(row: Row, e: CacheEntry)
    requires Readable(row)
  {
    var ids := Get(row.fileId.value.fields, "message_ids").items;
    var chat := Get(row.fileId.value.fields, "archive_chat");
    && (match e.archiveChat case ChatId(id) => chat == JInt(id) case ChatName(name) => chat == JStr(name))
    && |e.messageIds| == |ids|
    && (forall k :: 0 <= k < |ids| ==> IntOf(ids[k]) == Some(e.messageIds[k]))
    && e.title == (if row.meta.value.JObject? then Get(row.meta.value.fields, "title") else JNull)
    && (e.items == [] || |e.items| == |ids|)
    && (row.meta.value.JObject? ==>
          var d := Get(row.meta.value.fields, "description");
          if d.JStr? then e.description == Some(d.s) else e.description == None)
    && (!row.meta.value.JObject? ==> e.items == [] && e.description == None && e.subtitleIds == [] && e.subtitleNames == [])
  }

  /** A row is a miss exactly when it is not readable, and raises exactly when it is but its
      subtitle names cannot be iterated; otherwise it is a hit that says what the row says. */
  lemma WhatARowIs(row: Row, py: Python)
    ensures DecodeEntry(row, py).Miss? <==> !Readable(row)
    ensures DecodeEntry(row, py).Raises? <==> Readable(row) && !NamesIterable(row)
    ensures DecodeEntry(row, py).Hit? <==> Readable(row) && NamesIterable(row)
    ensures DecodeEntry(row, py).Hit? ==> SaysRow(row, DecodeEntry(row, py).entry)
  {
    hide DecodeAll, Texts, Ints;
    if Readable(row) {
      IntsLength(Get(row.fileId.value.fields, "message_ids").items);
      EmptyMap();
      if NamesIterable(row) {
        ItemsAlignedOrDropped(row, py);
      }
    }
  }

  lemma EmptyMap()
    ensures Falsy(JNull) && Ints([]) == [] && Texts([]) == []
  {
  }

  /** An empty kind is read as a video. */
  function Normalized(item: CachedItem): CachedItem { if item.kind == "" then item.(kind := "video") else item }

  function NormalizedAll(items: seq<CachedItem>): seq<CachedItem> {
    seq(|items|, i requires 0 <= i < |items| => Normalized(items[i]))
  }

  lemma DecodeItemJson(item: CachedItem, show: Json -> string)
    ensures DecodeItem(ItemJson(item), show) == Some(Normalized(item))
  {
  }

  lemma DecodeItemsJson(items: seq<CachedItem>, show: Json -> string)
    ensures DecodeItems(JArray(ItemsJson(items)), |items|, show) == NormalizedAll(items)
  {
    hide DecodeAll, DecodeItem, ItemJson;
    var raw := ItemsJson(items);
    forall k | 0 <= k < |raw| ensures DecodeItem(raw[k], show) == Some(Normalized(items[k])) {
      DecodeItemJson(items[k], show);
    }
    DecodeAllIs(raw, show);
    assert DecodeAll(raw, show).value == NormalizedAll(items);
  }

  lemma IntsOfJson(ints: seq<int>)
    ensures Ints(IntsJson(ints)) == ints
  {
    IntsLength(IntsJson(ints));
  }

  lemma {:induction false} TextsOfJson(texts: seq<string>)
    ensures Texts(TextsJson(texts)) == texts
  {
    if texts != [] {
      var init := texts[..|texts| - 1];
      TextsOfJson(init);
      assert TextsJson(texts)[..|texts| - 1] == TextsJson(init);
    }
  }

  /** The entry a row written by this store stands for. */
  function Written(chat: Chat, messageIds: seq<int>, title: Option<string>, items: seq<CachedItem>,
                   description: Option<string>, subtitleIds: seq<int>, subtitleNames: seq<string>): CacheEntry
  {
    CacheEntry(chat, messageIds, TextOrNull(title), if |items| == |messageIds| then NormalizedAll(items) else [],
               description, subtitleIds, subtitleNames)
  }

  /** Reading undoes writing; items that do not match the messages one to one are lost. */
  lemma DecodeUndoesEncode(chat: Chat, messageIds: seq<int>, title: Option<string>, items: seq<CachedItem>,
                           description: Option<string>, subtitleIds: seq<int>, subtitleNames: seq<string>, py: Python)
    ensures DecodeEntry(Encode(chat, messageIds, title, items, description, subtitleIds, subtitleNames), py)
         == Hit(Written(chat, messageIds, title, items, description, subtitleIds, subtitleNames))
  {
    hide DecodeAll, Ints, Texts, DecodeItems, ItemsJson, NormalizedAll;
    var row := Encode(chat, messageIds, title, items, description, subtitleIds, subtitleNames);
    var payload, meta := row.fileId.value.fields, row.meta.value.fields;
    assert Get(payload, "message_ids") == JArray(IntsJson(messageIds));
    assert Get(meta, "subtitle_names") == JArray(TextsJson(subtitleNames));
    assert Get(meta, "subtitle_ids") == JArray(IntsJson(subtitleIds));
    assert Get(meta, "items") == JArray(ItemsJson(items));
    IntsOfJson(messageIds);
    IntsOfJson(subtitleIds);
    TextsOfJson(subtitleNames);
    NamesRead(subtitleNames, py.keys);
    assert forall k :: 0 <= k < |messageIds| ==> IntsJson(messageIds)[k] == JInt(messageIds[k]);
    ItemsRead(items, |messageIds|, py.show);
  }

  lemma NamesRead(names: seq<string>, keys: map<string, Json> -> seq<string>)
    ensures NamesOf(JArray(TextsJson(names)), keys) == Names(names)
  {
    TextsOfJson(names);
  }

  lemma ItemsRead(items: seq<CachedItem>, expected: nat, show: Json -> string)
    ensures DecodeItems(JArray(ItemsJson(items)), expected, show)
         == if |items| == expected then NormalizedAll(items) else []
  {
    DecodeItemsJson(items, show);
  }

  // ------------------------------------------------------------ the store

  /** `VideoCacheStore`: one row per key. */
  class VideoCacheStore {
    var rows: map<string, Row>

    constructor ()
      ensures rows == map[]
    {
      rows := map[];
    }

    /** What a lookup answers for `key`. */
    ghost function Answer(key: string, py: Python): Decoded
      reads this
    {
      if key in rows then DecodeEntry(rows[key], py) else Miss
    }

    method Lookup(key: string, py: Python) returns (r: Decoded)
      ensures r == Answer(key, py)
      ensures r.Miss? <==> key !in rows || !Readable(rows[key])
      ensures r.Raises? <==> key in rows && Readable(rows[key]) && !NamesIterable(rows[key])
      ensures r.Hit? ==> SaysRow(rows[key], r.entry)
    {
      hide DecodeEntry, SaysRow, Readable, NamesIterable;
      if key !in rows {
        return Miss;
      }
      WhatARowIs(rows[key], py);
      r := DecodeEntry(rows[key], py);
    }

    method Put(key: string, chat: Chat, messageIds: seq<int>, title: Option<string>, items: seq<CachedItem>,
               description: Option<string>, subtitleIds: seq<int>, subtitleNames: seq<string>)
      modifies this
      ensures rows == old(rows)[key := Encode(chat, messageIds, title, items, description, subtitleIds, subtitleNames)]
      ensures forall py :: DecodeEntry(rows[key], py)
                           == Hit(Written(chat, messageIds, title, items, description, subtitleIds, subtitleNames))
      ensures forall py :: Answer(key, py) == Hit(Written(chat, messageIds, title, items, description, subtitleIds, subtitleNames))
      ensures forall other, py :: other != key ==> Answer(other, py) == old(Answer(other, py))
    {
      hide Encode, DecodeEntry, Written;
      var row := Encode(chat, messageIds, title, items, description, subtitleIds, subtitleNames);
      rows := rows[key := row];
      forall py {
        DecodeUndoesEncode(chat, messageIds, title, items, description, subtitleIds, subtitleNames, py);
      }
    }

    method Delete(key: string)
      modifies this
      ensures rows == old(rows) - {key}
      ensures forall py :: Answer(key, py) == Miss
    {
      rows := rows - {key};
    }
  }
}
