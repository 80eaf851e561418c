/**
 * The settings registry of `WordPressSettings`
 * (admin/inc/class-as-wp-admin-customization-menu.php), stated on values.
 * The class in menu.dfy updates its fields in place, and the contract of
 * each of its methods gives the new state through these functions; the
 * lemmas here state what the registry promises about that state.
 *
 * A registry holds the tabs (slug to title), the fields (tab slug to an
 * ordered map of field name to field), and the flat settings (field name to
 * value).  All three are PHP arrays, so tabs and fields keep insertion order.
 */
module Registry {
  import opened Wrappers
  import opened OrderedMaps
  import opened PhpStrings

  /**
   * The field types `add_field` admits: the six it lists, plus `Blank` for a
   * `type` given explicitly as `''`, which passes its guard and is stored as
   * it is.  No `validate_` or `render_` method exists for `Blank`.
   */
  datatype FieldType = Text | Textarea | WpEditor | Select | Radio | Checkbox | Blank

  /** The `type` string a field type is stored under. */
  function TypeName(t: FieldType): string {
    match t
    case Text => "text"
    case Textarea => "textarea"
    case WpEditor => "wpeditor"
    case Select => "select"
    case Radio => "radio"
    case Checkbox => "checkbox"
    case Blank => ""
  }

  /** The guard of `add_field` on an explicit `type`: `None` when it rejects the field. */
  function ParseType(s: string): (r: Option<FieldType>)
    ensures r.Some? ==> TypeName(r.value) == s
    ensures forall t :: TypeName(t) == s ==> r == Some(t)
  {
    if s == "text" then Some(Text)
    else if s == "textarea" then Some(Textarea)
    else if s == "wpeditor" then Some(WpEditor)
    else if s == "select" then Some(Select)
    else if s == "radio" then Some(Radio)
    else if s == "checkbox" then Some(Checkbox)
    else if s == "" then Some(Blank)
    else None
  }

  /** An option array whose keys all read as strings: a missing key reads as `''`. */
  function Get(o: map<string, string>, k: string): string {
    if k in o then o[k] else ""
  }

  /** The array passed to `add_field`; `None` is a key the caller left out. */
  datatype FieldArgs = FieldArgs(
    name: Option<string>, title: Option<string>, defaultValue: Option<string>,
    placeholder: Option<string>, kind: Option<string>, options: Option<OMap<string, string>>,
    desc: Option<string>)

  /** A registered field: the argument array merged over the defaults of `add_field`. */
  datatype Field = Field(
    name: string, title: string, defaultValue: string, placeholder: string,
    kind: FieldType, options: OMap<string, string>, desc: string)

  /**
   * The field `add_field` would register for `args`, before it looks at the
   * names already taken: `None` when the type guard or the empty-name check
   * rejects it.
   */
  function Prepare(args: FieldArgs): (r: Option<Field>)
    ensures r.None? <==> (args.kind.Some? && ParseType(args.kind.value).None?) || args.name.GetOr("") == ""
    ensures r.Some? ==> r.value.name == args.name.value
    ensures r.Some? && args.kind.None? ==> r.value.kind == Text
    ensures r.Some? && args.kind.Some? ==> TypeName(r.value.kind) == args.kind.value
    ensures r.Some? && args.options.GetOr(Empty()).keys == [] ==> r.value.defaultValue == args.defaultValue.GetOr("")
    ensures r.Some? && args.options.GetOr(Empty()).keys != [] && args.defaultValue.GetOr("") == "" ==>
              r.value.defaultValue == args.options.value.keys[0]
    ensures r.Some? && args.defaultValue.GetOr("") != "" ==> r.value.defaultValue == args.defaultValue.value
  {
    if args.kind.Some? && ParseType(args.kind.value).None? then None
    else
      var name := args.name.GetOr("");
      if name == "" then None
      else
        var kind := if args.kind.Some? then ParseType(args.kind.value).value else Text;
        var options := args.options.GetOr(Empty());
        var given := args.defaultValue.GetOr("");
        var default := if options.keys != [] && given == "" then options.keys[0] else given;
        Some(Field(name, args.title.GetOr(""), default, args.placeholder.GetOr(""), kind, options, args.desc.GetOr("")))
  }

  /** The fields of one tab, by name. */
  type Tab = OMap<string, Field>

  /** The fields of every tab, by tab slug. */
  type Fields = OMap<string, Tab>

  /**
   * What `add_field` keeps true of the fields: both levels are well-formed
   * ordered arrays, every field is stored under its own name, and no name is
   * registered under two tabs.
   */
  ghost predicate Wf(f: Fields) {
    && Valid(f)
    && (forall t :: t in f.m ==> Valid(f.m[t]))
    && (forall t, n :: t in f.m && n in f.m[t].m ==> f.m[t].m[n].name == n)
    && (forall t1, t2, n :: t1 in f.m && t2 in f.m && n in f.m[t1].m && n in f.m[t2].m ==> t1 == t2)
  }

  /** Every field name registered under some tab. */
  function Names(f: Fields): set<string> {
    set t, n | t in f.m && n in f.m[t].m :: n
  }

  /** The fields of tab `t`, or `array()` when it has none yet. */
  function TabOf(f: Fields, t: string): Tab {
    if t in f.m then f.m[t] else Empty()
  }

  /**
   * `add_field($args, $tab)`: a field the type guard or the name check
   * rejects, or whose name any tab already holds, changes nothing; an
   * accepted field goes last in its tab, which is created (last) when absent,
   * and every other tab is left as it was.
   */
  function AddFieldSpec(f: Fields, args: FieldArgs, tab: string): (r: Fields)
    requires Wf(f)
    ensures Wf(r)
    ensures Prepare(args).None? || args.name.value in Names(f) ==> r == f
    ensures Prepare(args).Some? && args.name.value !in Names(f) ==>
              && Names(r) == Names(f) + {args.name.value}
              && r.keys == (if tab in f.m then f.keys else f.keys + [tab])
              && tab in r.m
              && r.m[tab].keys == TabOf(f, tab).keys + [args.name.value]
              && r.m[tab].m == TabOf(f, tab).m[args.name.value := Prepare(args).value]
              && (forall t :: t != tab ==> (t in r.m <==> t in f.m))
              && (forall t :: t != tab && t in f.m ==> r.m[t] == f.m[t])
  {
    var prepared := Prepare(args);
    if prepared.None? || args.name.value in Names(f) then f
    else
      InsertField(f, tab, prepared.value);
      Put(f, tab, Put(TabOf(f, tab), prepared.value.name, prepared.value))
  }

  /** Storing a field under a name no tab holds keeps the fields well-formed and adds just that name. */
  lemma InsertField(f: Fields, tab: string, field: Field)
    requires Wf(f) && field.name !in Names(f)
    ensures var r := Put(f, tab, Put(TabOf(f, tab), field.name, field));
            Wf(r) && Names(r) == Names(f) + {field.name}
  {
    InsertKeepsWf(f, tab, field);
    InsertAddsName(f, tab, field);
  }

  lemma InsertKeepsWf(f: Fields, tab: string, field: Field)
    requires Wf(f) && field.name !in Names(f)
    ensures Wf(Put(f, tab, Put(TabOf(f, tab), field.name, field)))
  {
    InsertKeepsTabs(f, tab, field);
    InsertKeepsUnique(f, tab, field);
  }

  /** After the store every tab is still a valid array whose fields sit under their own names. */
  lemma InsertKeepsTabs(f: Fields, tab: string, field: Field)
    requires Wf(f)
    ensures var r := Put(f, tab, Put(TabOf(f, tab), field.name, field));
            && (forall t :: t in r.m ==> Valid(r.m[t]))
            && (forall t, n :: t in r.m && n in r.m[t].m ==> r.m[t].m[n].name == n)
  {
    var cur := TabOf(f, tab);
    var stored := Put(cur, field.name, field);
    var r := Put(f, tab, stored);
    forall t | t in r.m
      ensures Valid(r.m[t]) && forall n :: n in r.m[t].m ==> r.m[t].m[n].name == n
    {
      if t == tab {
        assert r.m[t] == stored && stored.m == cur.m[field.name := field];
      } else {
        assert r.m[t] == f.m[t];
      }
    }
  }

  /** A name no tab held before ends up in the one tab it is stored under. */
  lemma InsertKeepsUnique(f: Fields, tab: string, field: Field)
    requires Wf(f) && field.name !in Names(f)
    ensures var r := Put(f, tab, Put(TabOf(f, tab), field.name, field));
            forall t1, t2, n :: t1 in r.m && t2 in r.m && n in r.m[t1].m && n in r.m[t2].m ==> t1 == t2
  {
    var cur := TabOf(f, tab);
    assert field.name !in cur.m;
    var r := Put(f, tab, Put(cur, field.name, field));
    forall t1, t2, n | t1 in r.m && t2 in r.m && n in r.m[t1].m && n in r.m[t2].m
      ensures t1 == t2
    {
      if n == field.name {
        assert t1 == tab && t2 == tab;
      }
    }
  }

  lemma InsertAddsName(f: Fields, tab: string, field: Field)
    requires Wf(f) && field.name !in Names(f)
    ensures Names(Put(f, tab, Put(TabOf(f, tab), field.name, field))) == Names(f) + {field.name}
  {
    InsertNamesWithin(f, tab, field);
    InsertNamesKept(f, tab, field);
  }

  /** The store brings in no name but the stored field's. */
  lemma InsertNamesWithin(f: Fields, tab: string, field: Field)
    requires Wf(f)
    ensures Names(Put(f, tab, Put(TabOf(f, tab), field.name, field))) <= Names(f) + {field.name}
  {
    var cur := TabOf(f, tab);
    var stored := Put(cur, field.name, field);
    var r := Put(f, tab, stored);
    forall n | n in Names(r) ensures n in Names(f) + {field.name} {
      var t :| t in r.m && n in r.m[t].m;
      if t == tab {
        assert r.m[t] == stored && stored.m == cur.m[field.name := field];
        if n != field.name {
          assert tab in f.m && n in f.m[tab].m;
        }
      } else {
        assert r.m[t] == f.m[t];
      }
    }
  }

  /** The store loses no name, and adds the stored field's. */
  lemma InsertNamesKept(f: Fields, tab: string, field: Field)
    requires Wf(f)
    ensures Names(f) + {field.name} <= Names(Put(f, tab, Put(TabOf(f, tab), field.name, field)))
  {
    var cur := TabOf(f, tab);
    var stored := Put(cur, field.name, field);
    var r := Put(f, tab, stored);
    forall n | n in Names(f) ensures n in Names(r) {
      var t :| t in f.m && n in f.m[t].m;
      if t == tab {
        assert cur == f.m[t] && r.m[t] == stored;
      } else {
        assert r.m[t] == f.m[t];
      }
      assert n in r.m[t].m;
    }
    assert field.name in r.m[tab].m;
  }

  /**
   * `add_tab($options)`: an empty slug or title changes nothing; otherwise the
   * slug is mapped to the title, a new slug going last and an existing one
   * keeping its place.  No tab is ever removed.
   */
  function AddTabSpec(tabs: OMap<string, string>, options: map<string, string>): (r: OMap<string, string>)
    requires Valid(tabs)
    ensures Valid(r)
    ensures forall k :: k in tabs.m ==> k in r.m
    ensures Get(options, "slug") == "" || Get(options, "title") == "" ==> r == tabs
    ensures Get(options, "slug") != "" && Get(options, "title") != "" ==>
              && r.m == tabs.m[options["slug"] := options["title"]]
              && r.keys == (if options["slug"] in tabs.m then tabs.keys else tabs.keys + [options["slug"]])
  {
    var slug, title := Get(options, "slug"), Get(options, "title");
    if slug == "" || title == "" then tabs else Put(tabs, slug, title)
  }

  /** The tabs every registry starts with. */
  function InitialTabs(): (r: OMap<string, string>)
    ensures Valid(r) && r.keys == ["general"] && r.m == map["general" := "General"]
  {
    Put(Empty(), "general", "General")
  }

  /** The settings array: field name to value, where `None` is a stored PHP null. */
  type Blob = map<string, Option<string>>

  /** The options the host stores, by option name. */
  type Store = map<string, Blob>

  /** `(array) get_option($id)`, with an absent option read as an empty array. */
  function Stored(store: Store, id: string): Blob {
    if id in store then store[id] else map[]
  }

  /** `isset($settings[$k])` */
  predicate IsSet(s: Blob, k: string) {
    k in s && s[k].Some?
  }

  /** `$settings[$k]`: null when the key is missing. */
  function ValueAt(s: Blob, k: string): Option<string> {
    if k in s then s[k] else None
  }

  /** One field after `init_settings`: a stored value under its name replaces its default. */
  function LoadField(field: Field, s: Blob, name: string): (r: Field)
    ensures r.name == field.name && r.kind == field.kind
  {
    if IsSet(s, name) then field.(defaultValue := s[name].value) else field
  }

  function LoadTab(tab: Tab, s: Blob): (r: Tab)
    ensures r.keys == tab.keys && r.m.Keys == tab.m.Keys
    ensures forall n :: n in tab.m ==> r.m[n] == LoadField(tab.m[n], s, n)
  {
    OMap(tab.keys, map n | n in tab.m :: LoadField(tab.m[n], s, n))
  }

  /**
   * The fields after `init_settings` has read the stored settings `s`: a
   * field's default becomes the stored value when one is set under its name,
   * and nothing else about any field, tab or order changes.
   */
  function LoadDefaults(f: Fields, s: Blob): (r: Fields)
    ensures r.keys == f.keys && r.m.Keys == f.m.Keys
    ensures forall t :: t in f.m ==> r.m[t].keys == f.m[t].keys && r.m[t].m.Keys == f.m[t].m.Keys
    ensures forall t, n :: t in f.m && n in f.m[t].m && IsSet(s, n) ==>
              r.m[t].m[n] == f.m[t].m[n].(defaultValue := s[n].value)
    ensures forall t, n :: t in f.m && n in f.m[t].m && !IsSet(s, n) ==> r.m[t].m[n] == f.m[t].m[n]
  {
    OMap(f.keys, map t | t in f.m :: LoadTab(f.m[t], s))
  }

  /** Fields whose every tab has been loaded are the loaded fields. */
  lemma AllTabsLoaded(f: Fields, s: Blob, loaded: Fields)
    requires loaded.keys == f.keys && loaded.m.Keys == f.m.Keys
    requires forall t :: t in f.m ==> loaded.m[t] == LoadTab(f.m[t], s)
    ensures loaded == LoadDefaults(f, s)
  {
    assert loaded.m == LoadDefaults(f, s).m;
  }

  /** Loading stored values keeps the fields well-formed and the registered names as they were. */
  lemma LoadKeepsWf(f: Fields, s: Blob)
    requires Wf(f)
    ensures Wf(LoadDefaults(f, s)) && Names(LoadDefaults(f, s)) == Names(f)
  {
    var r := LoadDefaults(f, s);
    assert Valid(r);
    assert forall t :: t in r.m ==> Valid(r.m[t]);
    forall n | n in Names(r) ensures n in Names(f) {
      var t :| t in r.m && n in r.m[t].m;
    }
    forall n | n in Names(f) ensures n in Names(r) {
      var t :| t in f.m && n in f.m[t].m;
      assert n in r.m[t].m;
    }
  }

  /** Loading the same stored settings twice changes nothing more. */
  lemma LoadDefaultsIdempotent(f: Fields, s: Blob)
    ensures LoadDefaults(LoadDefaults(f, s), s) == LoadDefaults(f, s)
  {
    var once := LoadDefaults(f, s);
    var twice := LoadDefaults(once, s);
    forall t | t in f.m ensures twice.m[t] == once.m[t] {
      forall n | n in f.m[t].m ensures twice.m[t].m[n] == once.m[t].m[n] {
        var x := f.m[t].m[n];
        assert once.m[t].m[n] == LoadField(x, s, n);
        assert twice.m[t].m[n] == LoadField(LoadField(x, s, n), s, n);
      }
      assert twice.m[t].m == once.m[t].m;
    }
    assert twice.m == once.m;
  }

  /** Loading an empty settings array leaves every default as declared. */
  lemma LoadNothing(f: Fields)
    ensures LoadDefaults(f, map[]) == f
  {
    var r := LoadDefaults(f, map[]);
    forall t | t in f.m ensures r.m[t] == f.m[t] {
      assert r.m[t].m == f.m[t].m;
    }
    assert r.m == f.m;
  }

  /**
   * The default `get_option` falls back to: it walks the tabs in order and
   * keeps the default of the last tab holding a field of that name; `None`
   * when no listed tab holds one.
   */
  function FindDefault(tabKeys: seq<string>, f: Fields, key: string): (r: Option<string>)
    ensures r.Some? ==> exists i :: 0 <= i < |tabKeys| && tabKeys[i] in f.m && key in f.m[tabKeys[i]].m &&
                                    r.value == f.m[tabKeys[i]].m[key].defaultValue
    ensures r.None? ==> forall i :: 0 <= i < |tabKeys| ==> !(tabKeys[i] in f.m && key in f.m[tabKeys[i]].m)
  {
    if tabKeys == [] then None
    else
      var t := tabKeys[|tabKeys| - 1];
      if t in f.m && key in f.m[t].m then Some(f.m[t].m[key].defaultValue)
      else FindDefault(tabKeys[..|tabKeys| - 1], f, key)
  }

  /**
   * With names unique across tabs, the default found for a field registered
   * under a listed tab is that field's own default.
   */
  lemma FindRegisteredDefault(tabKeys: seq<string>, f: Fields, t: string, key: string)
    requires Wf(f) && t in tabKeys && t in f.m && key in f.m[t].m
    ensures FindDefault(tabKeys, f, key) == Some(f.m[t].m[key].defaultValue)
  {
    var i :| 0 <= i < |tabKeys| && tabKeys[i] == t;
    assert FindDefault(tabKeys, f, key).Some?;
  }

  /** The value `get_option($key)` returns: the setting when set, else the registered default. */
  function OptionValue(s: Blob, tabKeys: seq<string>, f: Fields, key: string): Option<string> {
    if IsSet(s, key) then s[key] else FindDefault(tabKeys, f, key)
  }

  /**
   * The settings after `get_option($key, $emptyValue)`, once `init_settings`
   * has run if it had to: an unset key takes the registered default when
   * there is one, and an empty string is replaced by a non-null
   * `$emptyValue`.  No other key changes.
   */
  function OptionSettings(s: Blob, tabKeys: seq<string>, f: Fields, key: string, emptyValue: Option<string>): (r: Blob)
    ensures forall k :: k != key ==> (k in r <==> k in s) && (k in s ==> r[k] == s[k])
    ensures var v := OptionValue(s, tabKeys, f, key);
            ValueAt(r, key) == if emptyValue.Some? && v == Some("") then emptyValue else v
  {
    var s1 := if IsSet(s, key) then s
              else match FindDefault(tabKeys, f, key)
                case Some(d) => s[key := Some(d)]
                case None => s;
    if emptyValue.Some? && key in s1 && s1[key] == Some("") then s1[key := emptyValue] else s1
  }

  /** The settings and fields `get_option` and `save_settings` work on: loaded first when the settings are empty. */
  ghost function Loaded(s: Blob, f: Fields, stored: Blob): (r: (Blob, Fields))
    ensures Wf(f) ==> Wf(r.1) && Names(r.1) == Names(f)
  {
    if s == map[] then
      if Wf(f) then LoadKeepsWf(f, stored); (stored, LoadDefaults(f, stored)) else (stored, LoadDefaults(f, stored))
    else (s, f)
  }

  /**
   * When nothing is loaded because the settings are non-empty or the store
   * holds nothing, `get_option` leaves settings and fields as they were, and
   * storing a value under the key afterwards hides whatever it filled in.
   */
  lemma StoreOverOption(s: Blob, f: Fields, stored: Blob, tabKeys: seq<string>, key: string, v: Option<string>)
    requires Wf(f) && (s == map[] ==> stored == map[])
    ensures Loaded(s, f, stored) == (s, f)
    ensures OptionSettings(s, tabKeys, f, key, None)[key := v] == s[key := v]
  {
    if s == map[] {
      LoadNothing(f);
    }
  }

  /** The host's sanitisers: `stripslashes`, `wp_kses_post`, and `wp_kses` with iframes allowed. */
  datatype Host = Host(stripSlashes: string -> string, ksesPost: string -> string, ksesWithIframe: string -> string)

  /** How a posted value is cleaned before it is saved, by field type. */
  function Sanitize(kind: FieldType, raw: string, host: Host): string
    requires !kind.Checkbox? && !kind.Blank?
  {
    match kind
    case Text => host.ksesPost(Trim(host.stripSlashes(raw)))
    case Textarea => host.ksesWithIframe(Trim(host.stripSlashes(raw)))
    case WpEditor => host.ksesWithIframe(Trim(host.stripSlashes(raw)))
    case Select => host.stripSlashes(raw)
    case Radio => host.stripSlashes(raw)
  }

  /**
   * `validate_<type>($key)` given the value `get_option($key)` returns.  A
   * checkbox is `'1'` exactly when `'1'` was posted for it, and `''`
   * otherwise; every other type takes the cleaned posted value when one was
   * posted and keeps the current value when none was.
   */
  function Validated(kind: FieldType, posted: map<string, string>, key: string, current: Option<string>, host: Host): (r: Option<string>)
    requires !kind.Blank?
    ensures kind.Checkbox? ==> (r == Some("1") <==> key in posted && posted[key] == "1")
    ensures kind.Checkbox? ==> r == Some("1") || r == Some("")
    ensures !kind.Checkbox? && key in posted ==> r == Some(Sanitize(kind, posted[key], host))
    ensures !kind.Checkbox? && key !in posted ==> r == current
  {
    if kind.Checkbox? then
      if key in posted && posted[key] == "1" then Some("1") else Some("")
    else if key in posted then Some(Sanitize(kind, posted[key], host))
    else current
  }

  /** A checkbox's saved value does not depend on its previous value. */
  lemma CheckboxForgetsCurrent(posted: map<string, string>, key: string, before: Option<string>, after: Option<string>, host: Host)
    ensures Validated(Checkbox, posted, key, before, host) == Validated(Checkbox, posted, key, after, host)
    ensures before == Some("1") && key !in posted ==> Validated(Checkbox, posted, key, before, host) == Some("")
  {
  }

  /** A field `save_settings` visits: its name and its type. */
  datatype Entry = Entry(name: string, kind: FieldType)

  /** The entries of the fields `ks` of one tab, in that order. */
  function TabEntries(tab: Tab, ks: seq<string>): (es: seq<Entry>)
    requires forall k :: k in ks ==> k in tab.m
    ensures |es| == |ks|
    ensures forall i :: 0 <= i < |ks| ==> es[i] == Entry(ks[i], tab.m[ks[i]].kind)
  {
    seq(|ks|, i requires 0 <= i < |ks| => Entry(ks[i], tab.m[ks[i]].kind))
  }

  /** The entries of the tabs `tks`, tab after tab, each tab's fields in order. */
  function EntriesOf(f: Fields, tks: seq<string>): (es: seq<Entry>)
    requires Wf(f) && forall t :: t in tks ==> t in f.m
  {
    if tks == [] then []
    else
      var t := tks[|tks| - 1];
      EntriesOf(f, tks[..|tks| - 1]) + TabEntries(f.m[t], f.m[t].keys)
  }

  /** Field `e` is registered, with its type, under one of the tabs `tks`. */
  ghost predicate RegisteredIn(f: Fields, tks: seq<string>, e: Entry) {
    exists t :: t in tks && t in f.m && e.name in f.m[t].m && e.kind == f.m[t].m[e.name].kind
  }

  /** The entries of the tabs `tks` are exactly the fields registered under them. */
  lemma {:induction false} EntriesOfMembers(f: Fields, tks: seq<string>)
    requires Wf(f) && (forall t :: t in tks ==> t in f.m)
    ensures forall e :: e in EntriesOf(f, tks) <==> RegisteredIn(f, tks, e)
    decreases |tks|
  {
    if tks != [] {
      var pre, t := tks[..|tks| - 1], tks[|tks| - 1];
      EntriesOfMembers(f, pre);
      var a: seq<Entry>, b: seq<Entry> := EntriesOf(f, pre), TabEntries(f.m[t], f.m[t].keys);
      assert EntriesOf(f, tks) == a + b;
      forall e | e in a + b ensures RegisteredIn(f, tks, e) {
        if e in a {
          var u :| u in pre && u in f.m && e.name in f.m[u].m && e.kind == f.m[u].m[e.name].kind;
          assert u in tks;
        } else {
          assert t in tks;
        }
      }
      forall e | RegisteredIn(f, tks, e) ensures e in a + b {
        var u :| u in tks && u in f.m && e.name in f.m[u].m && e.kind == f.m[u].m[e.name].kind;
        if u == t {
          var k :| 0 <= k < |f.m[t].keys| && f.m[t].keys[k] == e.name;
          assert b[k] == e;
        } else {
          assert u in pre by {
            var k :| 0 <= k < |tks| && tks[k] == u;
            assert k < |tks| - 1;
          }
          assert RegisteredIn(f, pre, e);
        }
      }
    }
  }

  /** The entries of distinct tabs carry distinct names, because names are unique across tabs. */
  lemma {:induction false} EntriesOfDistinct(f: Fields, tks: seq<string>)
    requires Wf(f) && (forall t :: t in tks ==> t in f.m)
    requires forall i, j :: 0 <= i < j < |tks| ==> tks[i] != tks[j]
    ensures forall i, j :: 0 <= i < j < |EntriesOf(f, tks)| ==> EntriesOf(f, tks)[i].name != EntriesOf(f, tks)[j].name
    decreases |tks|
  {
    if tks != [] {
      var pre, t := tks[..|tks| - 1], tks[|tks| - 1];
      EntriesOfDistinct(f, pre);
      EntriesOfMembers(f, pre);
      assert forall k :: 0 <= k < |pre| ==> pre[k] != t;
      var a: seq<Entry>, b: seq<Entry> := EntriesOf(f, pre), TabEntries(f.m[t], f.m[t].keys);
      assert EntriesOf(f, tks) == a + b;
      forall x, y | x in a && y in b ensures x.name != y.name {
        var u :| u in pre && u in f.m && x.name in f.m[u].m && x.kind == f.m[u].m[x.name].kind;
        var k :| 0 <= k < |b| && b[k] == y;
        assert y.name in f.m[t].m;
      }
      TabEntriesDistinct(f.m[t]);
      AppendDistinct(a, b);
    }
  }

  /** The entries of one tab carry distinct names, its keys being distinct. */
  lemma TabEntriesDistinct(tab: Tab)
    requires Valid(tab)
    ensures var b := TabEntries(tab, tab.keys);
            forall i, j :: 0 <= i < j < |b| ==> b[i].name != b[j].name
  {
  }

  /** Two lists of entries with distinct names, and no name in both, join into one with distinct names. */
  lemma AppendDistinct(a: seq<Entry>, b: seq<Entry>)
    requires forall i, j :: 0 <= i < j < |a| ==> a[i].name != a[j].name
    requires forall i, j :: 0 <= i < j < |b| ==> b[i].name != b[j].name
    requires forall x, y :: x in a && y in b ==> x.name != y.name
    ensures forall i, j :: 0 <= i < j < |a + b| ==> (a + b)[i].name != (a + b)[j].name
  {
    forall i, j | 0 <= i < j < |a + b| ensures (a + b)[i].name != (a + b)[j].name {
      if j < |a| {
        assert (a + b)[i] == a[i] && (a + b)[j] == a[j];
      } else if i < |a| {
        assert (a + b)[i] == a[i] && (a + b)[j] == b[j - |a|];
        assert a[i] in a && b[j - |a|] in b;
      } else {
        assert (a + b)[i] == b[i - |a|] && (a + b)[j] == b[j - |a|];
      }
    }
  }

  /** Every registered field, in the order `save_settings` visits them. */
  function Entries(f: Fields): seq<Entry>
    requires Wf(f)
  {
    EntriesOf(f, f.keys)
  }

  /**
   * The settings after `save_settings` has run the validators of the entries
   * `es` in order, starting from `s`; `None` when it reaches a field of type
   * `Blank`, whose `validate_` method does not exist, and stops with a fatal
   * error before anything is written.
   */
  function SaveFold(s: Blob, es: seq<Entry>, tabKeys: seq<string>, f: Fields, posted: map<string, string>, host: Host): Option<Blob>
    decreases |es|
  {
    if es == [] then Some(s)
    else
      match SaveFold(s, es[..|es| - 1], tabKeys, f, posted, host)
      case None => None
      case Some(before) =>
        var e := es[|es| - 1];
        if e.kind.Blank? then None
        else Some(before[e.name := Validated(e.kind, posted, e.name, OptionValue(before, tabKeys, f, e.name), host)])
  }

  /** The names of the entries `es`. */
  function EntryNames(es: seq<Entry>): set<string> {
    set e | e in es :: e.name
  }

  /** The save completes exactly when no entry is `Blank`. */
  lemma {:induction false} SaveFoldCompletes(s: Blob, es: seq<Entry>, tabKeys: seq<string>, f: Fields, posted: map<string, string>, host: Host)
    ensures SaveFold(s, es, tabKeys, f, posted, host).Some? <==> forall i :: 0 <= i < |es| ==> !es[i].kind.Blank?
    decreases |es|
  {
    if es != [] {
      var pre := es[..|es| - 1];
      SaveFoldCompletes(s, pre, tabKeys, f, posted, host);
      assert forall i :: 0 <= i < |pre| ==> pre[i] == es[i];
    }
  }

  /** A save leaves every name outside its entries as it was. */
  lemma {:induction false} SaveFoldKeeps(s: Blob, es: seq<Entry>, tabKeys: seq<string>, f: Fields, posted: map<string, string>, host: Host)
    requires SaveFold(s, es, tabKeys, f, posted, host).Some?
    ensures forall k :: k !in EntryNames(es) ==>
              && (k in SaveFold(s, es, tabKeys, f, posted, host).value <==> k in s)
              && (k in s ==> SaveFold(s, es, tabKeys, f, posted, host).value[k] == s[k])
    decreases |es|
  {
    if es != [] {
      var pre, e := es[..|es| - 1], es[|es| - 1];
      SaveFoldKeeps(s, pre, tabKeys, f, posted, host);
      assert EntryNames(es) == EntryNames(pre) + {e.name} by {
        assert es == pre + [e];
      }
    }
  }

  /**
   * When the entries have distinct names, each entry's saved value is its
   * validator applied to the settings as they were before the save: no
   * validator sees another's result.
   */
  lemma {:induction false} SaveFoldValues(s: Blob, es: seq<Entry>, tabKeys: seq<string>, f: Fields, posted: map<string, string>, host: Host)
    requires forall i, j :: 0 <= i < j < |es| ==> es[i].name != es[j].name
    requires forall i :: 0 <= i < |es| ==> !es[i].kind.Blank?
    ensures SaveFold(s, es, tabKeys, f, posted, host).Some?
    ensures forall i :: 0 <= i < |es| ==>
              && es[i].name in SaveFold(s, es, tabKeys, f, posted, host).value
              && SaveFold(s, es, tabKeys, f, posted, host).value[es[i].name]
                 == Validated(es[i].kind, posted, es[i].name, OptionValue(s, tabKeys, f, es[i].name), host)
    decreases |es|
  {
    if es != [] {
      var pre, e := es[..|es| - 1], es[|es| - 1];
      assert forall i :: 0 <= i < |pre| ==> pre[i] == es[i];
      SaveFoldValues(s, pre, tabKeys, f, posted, host);
      LastEntryFresh(es);
      SaveFoldLast(s, es, tabKeys, f, posted, host);
      var r := SaveFold(s, es, tabKeys, f, posted, host).value;
      forall i | 0 <= i < |es|
        ensures es[i].name in r
        ensures r[es[i].name] == Validated(es[i].kind, posted, es[i].name, OptionValue(s, tabKeys, f, es[i].name), host)
      {
        if i < |es| - 1 {
          assert es[i] == pre[i];
        }
      }
    }
  }

  /** With distinct names, the last entry's name is not among the earlier ones. */
  lemma LastEntryFresh(es: seq<Entry>)
    requires es != [] && forall i, j :: 0 <= i < j < |es| ==> es[i].name != es[j].name
    ensures es[|es| - 1].name !in EntryNames(es[..|es| - 1])
  {
    var pre := es[..|es| - 1];
    forall x | x in pre ensures x.name != es[|es| - 1].name {
      var k :| 0 <= k < |pre| && pre[k] == x;
    }
  }

  /**
   * The last step of the save: a last entry whose name no earlier entry has
   * is validated against the settings the save started from.
   */
  lemma SaveFoldLast(s: Blob, es: seq<Entry>, tabKeys: seq<string>, f: Fields, posted: map<string, string>, host: Host)
    requires es != [] && !es[|es| - 1].kind.Blank?
    requires SaveFold(s, es[..|es| - 1], tabKeys, f, posted, host).Some?
    requires es[|es| - 1].name !in EntryNames(es[..|es| - 1])
    ensures var e := es[|es| - 1];
            SaveFold(s, es, tabKeys, f, posted, host) == Some(SaveFold(s, es[..|es| - 1], tabKeys, f, posted, host).value[e.name := Validated(e.kind, posted, e.name, OptionValue(s, tabKeys, f, e.name), host)])
  {
    var pre, e := es[..|es| - 1], es[|es| - 1];
    SaveFoldKeeps(s, pre, tabKeys, f, posted, host);
    var before := SaveFold(s, pre, tabKeys, f, posted, host).value;
    assert OptionValue(before, tabKeys, f, e.name) == OptionValue(s, tabKeys, f, e.name);
  }

  /**
   * `save_settings` on well-formed fields: it completes exactly when no
   * registered field has type `Blank`; then every registered field holds its
   * validator's result on the settings it started from, and every other key
   * keeps its value.
   */
  lemma SaveRewritesEveryField(s: Blob, tabKeys: seq<string>, f: Fields, posted: map<string, string>, host: Host)
    requires Wf(f)
    ensures var r := SaveFold(s, Entries(f), tabKeys, f, posted, host);
            && (r.Some? <==> forall t, n :: t in f.m && n in f.m[t].m ==> !f.m[t].m[n].kind.Blank?)
            && (r.Some? ==> forall t, n :: t in f.m && n in f.m[t].m ==>
                   n in r.value && r.value[n] == Validated(f.m[t].m[n].kind, posted, n, OptionValue(s, tabKeys, f, n), host))
            && (r.Some? ==> forall k :: k !in Names(f) ==> (k in r.value <==> k in s) && (k in s ==> r.value[k] == s[k]))
  {
    var es := Entries(f);
    assert es == EntriesOf(f, f.keys);
    EntriesOfMembers(f, f.keys);
    EntriesOfDistinct(f, f.keys);
    SaveFoldCompletes(s, es, tabKeys, f, posted, host);
    if forall i :: 0 <= i < |es| ==> !es[i].kind.Blank? {
      SaveFoldValues(s, es, tabKeys, f, posted, host);
      SaveFoldKeeps(s, es, tabKeys, f, posted, host);
    }
    var r := SaveFold(s, es, tabKeys, f, posted, host);
    forall t, n | t in f.m && n in f.m[t].m
      ensures Entry(n, f.m[t].m[n].kind) in es
    {
      assert RegisteredIn(f, f.keys, Entry(n, f.m[t].m[n].kind));
    }
    if r.Some? {
      forall t, n | t in f.m && n in f.m[t].m
        ensures n in r.value && r.value[n] == Validated(f.m[t].m[n].kind, posted, n, OptionValue(s, tabKeys, f, n), host)
      {
        var k :| 0 <= k < |es| && es[k] == Entry(n, f.m[t].m[n].kind);
      }
      forall e | e in es ensures e.name in Names(f) {
        assert RegisteredIn(f, f.keys, e);
      }
    } else {
      var i :| 0 <= i < |es| && es[i].kind.Blank?;
      assert RegisteredIn(f, f.keys, es[i]);
    }
  }

  /**
   * Saving and then loading the saved settings: once `save_settings` has
   * completed, the default `init_settings` gives each registered field is
   * its validator's result — `'1'` or `''` for a checkbox, the cleaned
   * posted value when one was posted, and otherwise the value `get_option`
   * had for it before the save, or its declared default when that was null.
   */
  lemma SaveThenLoad(s: Blob, tabKeys: seq<string>, f: Fields, posted: map<string, string>, host: Host,
                     r: Blob, t: string, n: string)
    requires Wf(f) && SaveFold(s, Entries(f), tabKeys, f, posted, host) == Some(r)
    requires t in f.m && n in f.m[t].m
    ensures !f.m[t].m[n].kind.Blank?
    ensures var d := LoadDefaults(f, r).m[t].m[n].defaultValue;
            f.m[t].m[n].kind.Checkbox? ==> d == if n in posted && posted[n] == "1" then "1" else ""
    ensures var d := LoadDefaults(f, r).m[t].m[n].defaultValue;
            !f.m[t].m[n].kind.Checkbox? && n in posted ==> d == Sanitize(f.m[t].m[n].kind, posted[n], host)
    ensures var d := LoadDefaults(f, r).m[t].m[n].defaultValue;
            var before := OptionValue(s, tabKeys, f, n);
            !f.m[t].m[n].kind.Checkbox? && n !in posted ==> d == if before.Some? then before.value else f.m[t].m[n].defaultValue
  {
    SaveRewritesEveryField(s, tabKeys, f, posted, host);
    assert r[n] == Validated(f.m[t].m[n].kind, posted, n, OptionValue(s, tabKeys, f, n), host);
  }

  /** A control `render_fields` prints: its type, its name and the value it shows (the field's default). */
  datatype Control = Control(kind: FieldType, name: string, shown: string)

  /**
   * What `render_fields($tab)` prints: a notice when the tab has no fields,
   * the controls of its fields in order, or the controls printed before a
   * `Blank` field stopped it with a fatal error.
   */
  datatype Rendering = NoSettings | Controls(items: seq<Control>) | Aborted(items: seq<Control>)

  /** The controls of the fields `ks` of one tab, in order. */
  function RenderTab(tab: Tab, ks: seq<string>): Rendering
    requires forall k :: k in ks ==> k in tab.m
    decreases |ks|
  {
    if ks == [] then Controls([])
    else
      match RenderTab(tab, ks[..|ks| - 1])
      case Controls(items) =>
        var field := tab.m[ks[|ks| - 1]];
        if field.kind.Blank? then Aborted(items)
        else Controls(items + [Control(field.kind, field.name, field.defaultValue)])
      case other => other
  }

  function RenderSpec(f: Fields, tab: string): Rendering
    requires Wf(f)
  {
    if tab !in f.m then NoSettings else RenderTab(f.m[tab], f.m[tab].keys)
  }

  /**
   * `render_fields` prints one control per field, in the tab's order, each
   * showing the field's type, name and default; when the tab holds a `Blank`
   * field it prints exactly the controls before the first one.
   */
  lemma {:induction false} RenderTabLists(tab: Tab, ks: seq<string>)
    requires forall k :: k in ks ==> k in tab.m
    ensures RenderTab(tab, ks).Controls? <==> forall i :: 0 <= i < |ks| ==> !tab.m[ks[i]].kind.Blank?
    ensures RenderTab(tab, ks).Controls? ==>
              var items := RenderTab(tab, ks).items;
              |items| == |ks| &&
              forall i :: 0 <= i < |ks| ==> items[i] == Control(tab.m[ks[i]].kind, tab.m[ks[i]].name, tab.m[ks[i]].defaultValue)
    ensures RenderTab(tab, ks).Aborted? ==>
              var items := RenderTab(tab, ks).items;
              && |items| < |ks| && tab.m[ks[|items|]].kind.Blank?
              && forall i :: 0 <= i < |items| ==>
                   !tab.m[ks[i]].kind.Blank? &&
                   items[i] == Control(tab.m[ks[i]].kind, tab.m[ks[i]].name, tab.m[ks[i]].defaultValue)
    ensures !RenderTab(tab, ks).NoSettings?
    decreases |ks|
  {
    if ks != [] {
      var pre := ks[..|ks| - 1];
      RenderTabLists(tab, pre);
      assert forall i :: 0 <= i < |pre| ==> pre[i] == ks[i];
    }
  }
}
