/**
 * `WordPressMenu`, `WordPressSubMenu` and `WordPressMenuTab`
 * (admin/inc/class-as-wp-admin-customization-menu.php).  `WordPressMenu`
 * carries the fields of the abstract `WordPressSettings` it extends, and
 * every method updates them in place as the source does; the contract of
 * each gives the new state through the functions of module `Registry`.  The host's
 * option table, the request arrays and the sanitisers are parameters.
 */
module Menus {
  import opened Wrappers
  import opened OrderedMaps
  import opened PhpStrings
  import opened Registry

  /** `$defaultOptions`; `parent` and `position` default to null, so they are absent here. */
  const MenuDefaults: map<string, string> := map[
    "slug" := "", "title" := "", "page_title" := "", "id" := "",
    "capability" := "manage_options", "icon" := "dashicons-admin-generic",
    "desc" := "", "function" := ""]

  /**
   * The menu options after `prepopulate`: an empty title becomes the slug
   * with its first letter upper-cased, then an empty page title becomes the
   * title.  No other option changes.
   */
  function Prepopulated(o: map<string, string>): (r: map<string, string>)
    ensures Get(r, "title") == if Get(o, "title") == "" then UcFirst(Get(o, "slug")) else Get(o, "title")
    ensures Get(r, "page_title") == if Get(o, "page_title") == "" then Get(r, "title") else Get(o, "page_title")
    ensures Get(o, "slug") != "" ==> Get(r, "title") != "" && Get(r, "page_title") != ""
    ensures forall k :: k != "title" && k != "page_title" ==> (k in r <==> k in o) && (k in o ==> r[k] == o[k])
  {
    var o1 := if Get(o, "title") == "" then o["title" := UcFirst(Get(o, "slug"))] else o;
    if Get(o1, "page_title") == "" then o1["page_title" := Get(o1, "title")] else o1
  }

  /** Prepopulating twice is prepopulating once. */
  lemma PrepopulateIdempotent(o: map<string, string>)
    ensures Prepopulated(Prepopulated(o)) == Prepopulated(o)
  {
    var once := Prepopulated(o);
    var twice := Prepopulated(once);
    if Get(o, "slug") != "" {
      assert Get(once, "slug") == Get(o, "slug");
    } else if Get(o, "title") == "" {
      assert Get(once, "title") == "";
      assert Get(once, "page_title") == Get(o, "page_title");
    }
    assert twice == once;
  }

  /** The page callback: `create_menu_page` unless the `function` option names another. */
  datatype Callback = CreateMenuPageCallback | Named(name: string)

  /** The page `add_page` registers with the host. */
  datatype PageRegistration =
    | SubmenuPage(parent: string, pageTitle: string, menuTitle: string, capability: string,
                  slug: string, callback: Callback)
    | MenuPage(pageTitle: string, menuTitle: string, capability: string, slug: string,
               callback: Callback, icon: string, position: Option<string>)

  /** What `create_menu_page` leaves on screen: the tab with its fields, or nothing when the save before it died. */
  datatype Page = Died | Shown(tab: string, view: Rendering)

  class WordPressMenu {
    /** `$settings_id`: the option name the settings are saved under. */
    const settingsId: string
    /** `$tabs`: tab slug to title. */
    var tabs: OMap<string, string>
    /** `$settings`: field name to saved value. */
    var settings: Blob
    /** `$fields`: tab slug to the fields of that tab. */
    var fields: Fields
    /** `$posted_data` */
    var postedData: map<string, string>
    /** `$menu_options` */
    var menuOptions: map<string, string>
    /** `$parent_id`: set on sub-menus only. */
    const parentId: Option<string>

    /** The tabs are a well-formed array that still holds `general`, and the fields are well-formed. */
    ghost predicate Valid()
      reads this
    {
      OrderedMaps.Valid(tabs) && "general" in tabs.m && Wf(fields)
    }

    /** `new WordPressMenu($options)` */
    constructor (options: map<string, string>)
      ensures Valid()
      ensures settingsId == Get(MenuDefaults + options, "slug")
      ensures menuOptions == if settingsId == "" then MenuDefaults + options else Prepopulated(MenuDefaults + options)
      ensures tabs == InitialTabs() && fields == Empty() && settings == map[] && postedData == map[]
      ensures parentId == None
    {
      settingsId := Get(MenuDefaults + options, "slug");
      tabs := InitialTabs();
      settings := map[];
      fields := Empty();
      postedData := map[];
      menuOptions := map[];
      parentId := None;
      new;
      Construct(options);
    }

    /** `new WordPressSubMenu($options, $parent)`: a menu that records its parent's settings id. */
    constructor SubMenu(options: map<string, string>, parent: WordPressMenu)
      ensures Valid()
      ensures settingsId == Get(MenuDefaults + options, "slug")
      ensures menuOptions == if settingsId == "" then MenuDefaults + options else Prepopulated(MenuDefaults + options)
      ensures tabs == InitialTabs() && fields == Empty() && settings == map[] && postedData == map[]
      ensures parentId == Some(parent.settingsId)
    {
      settingsId := Get(MenuDefaults + options, "slug");
      tabs := InitialTabs();
      settings := map[];
      fields := Empty();
      postedData := map[];
      menuOptions := map[];
      parentId := Some(parent.settingsId);
      new;
      Construct(options);
    }

    /**
     * The body of `__construct`: merge the options over the defaults; with
     * an empty slug stop there, otherwise prepopulate.  The settings id,
     * `''` by default and the slug otherwise, is the slug in both cases and
     * is fixed when the object is created.
     */
    method Construct(options: map<string, string>)
      modifies this`menuOptions
      ensures menuOptions == if Get(MenuDefaults + options, "slug") == "" then MenuDefaults + options
                             else Prepopulated(MenuDefaults + options)
    {
      menuOptions := MenuDefaults + options;
      if Get(menuOptions, "slug") == "" {
        return;
      }
      Prepopulate();
    }

    /** `prepopulate` */
    method Prepopulate()
      modifies this`menuOptions
      ensures menuOptions == Prepopulated(old(menuOptions))
    {
      if Get(menuOptions, "title") == "" {
        menuOptions := menuOptions["title" := UcFirst(Get(menuOptions, "slug"))];
      }
      if Get(menuOptions, "page_title") == "" {
        menuOptions := menuOptions["page_title" := Get(menuOptions, "title")];
      }
    }

    /**
     * `add_page`: a sub-menu page under the parent when a non-empty parent id
     * is set (PHP's `!= null` treats `''` as null), a top-level page
     * otherwise, with `create_menu_page` as callback unless `function` is set.
     */
    function AddPage(): (r: PageRegistration)
      reads this
      ensures r.SubmenuPage? <==> parentId.Some? && parentId.value != ""
      ensures r.SubmenuPage? ==> r.parent == parentId.value
      ensures r.callback.CreateMenuPageCallback? <==> Get(menuOptions, "function") == ""
      ensures r.slug == Get(menuOptions, "slug") && r.menuTitle == Get(menuOptions, "title")
      ensures r.pageTitle == Get(menuOptions, "page_title") && r.capability == Get(menuOptions, "capability")
      ensures r.MenuPage? ==> r.icon == Get(menuOptions, "icon")
      ensures r.MenuPage? ==> (r.position.Some? <==> "position" in menuOptions)
      ensures r.MenuPage? && r.position.Some? ==> r.position.value == menuOptions["position"]
    {
      var callback := if Get(menuOptions, "function") == "" then CreateMenuPageCallback else Named(menuOptions["function"]);
      if parentId.Some? && parentId.value != "" then
        SubmenuPage(parentId.value, Get(menuOptions, "page_title"), Get(menuOptions, "title"),
                    Get(menuOptions, "capability"), Get(menuOptions, "slug"), callback)
      else
        MenuPage(Get(menuOptions, "page_title"), Get(menuOptions, "title"), Get(menuOptions, "capability"),
                 Get(menuOptions, "slug"), callback, Get(menuOptions, "icon"),
                 if "position" in menuOptions then Some(menuOptions["position"]) else None)
    }

    /**
     * `save_if_submit`: the save runs when the request posts
     * `<settings id>_save` and the constructor registered the save action,
     * which it does only for a non-empty slug.  `alive` is false when the
     * save died on a field of type `Blank`; the request ends there.
     */
    method SaveIfSubmit(post: map<string, string>, store: Store, host: Host) returns (newStore: Store, alive: bool)
      requires Valid()
      modifies this`postedData, this`settings, this`fields
      ensures Valid()
      ensures !(settingsId != "" && settingsId + "_save" in post) ==>
                && alive && newStore == store
                && settings == old(settings) && fields == old(fields) && postedData == old(postedData)
      ensures settingsId != "" && settingsId + "_save" in post ==>
                && postedData == post
                && fields == Loaded(old(settings), old(fields), Stored(store, settingsId)).1
                && var r := SaveFold(Loaded(old(settings), old(fields), Stored(store, settingsId)).0,
                                     Entries(fields), tabs.keys, fields, post, host);
                   && (alive <==> r.Some?)
                   && (alive ==> settings == r.value && newStore == store[settingsId := r.value])
                   && (!alive ==> newStore == store)
    {
      if settingsId != "" && settingsId + "_save" in post {
        newStore, alive := SaveSettings(post, store, host);
      } else {
        newStore, alive := store, true;
      }
    }

    /**
     * `create_menu_page`, without its markup: save if submitted, pick the
     * tab from `$_GET['tab']` (default `general`), load the settings from
     * the (possibly just written) store, and render that tab's fields.  When
     * the save died, nothing is loaded or shown.
     */
    method CreateMenuPage(get: map<string, string>, post: map<string, string>, store: Store, host: Host)
      returns (newStore: Store, page: Page)
      requires Valid()
      modifies this`postedData, this`settings, this`fields
      ensures Valid()
      ensures var tab := if "tab" in get then get["tab"] else "general";
              !(settingsId != "" && settingsId + "_save" in post) ==>
                && newStore == store && postedData == old(postedData)
                && settings == Stored(store, settingsId) && fields == LoadDefaults(old(fields), settings)
                && page == Shown(tab, RenderSpec(fields, tab))
      ensures var tab := if "tab" in get then get["tab"] else "general";
              var loaded := Loaded(old(settings), old(fields), Stored(store, settingsId));
              var r := SaveFold(loaded.0, Entries(loaded.1), tabs.keys, loaded.1, post, host);
              settingsId != "" && settingsId + "_save" in post ==>
                && postedData == post
                && (r.None? ==> newStore == store && page == Died)
                && (r.Some? ==> && newStore == store[settingsId := r.value]
                                && settings == r.value && fields == LoadDefaults(loaded.1, r.value)
                                && page == Shown(tab, RenderSpec(fields, tab)))
    {
      ghost var loaded := Loaded(settings, fields, Stored(store, settingsId));
      ghost var r := SaveFold(loaded.0, Entries(loaded.1), tabs.keys, loaded.1, post, host);
      ghost var submitted := settingsId != "" && settingsId + "_save" in post;
      var alive;
      newStore, alive := SaveIfSubmit(post, store, host);
      assert submitted ==> fields == loaded.1 && (alive <==> r.Some?);
      assert submitted && alive ==> newStore == store[settingsId := r.value];
      assert !submitted ==> newStore == store;
      if !alive {
        page := Died;
        return;
      }
      page := ShowPage(get, newStore);
    }

    /** The part of `create_menu_page` after the save: pick the tab, load the settings, render the tab's fields. */
    method ShowPage(get: map<string, string>, store: Store) returns (page: Page)
      requires Valid()
      modifies this`settings, this`fields
      ensures Valid()
      ensures settings == Stored(store, settingsId) && fields == LoadDefaults(old(fields), settings)
      ensures var tab := if "tab" in get then get["tab"] else "general";
              page == Shown(tab, RenderSpec(fields, tab))
    {
      var tab := "general";
      if "tab" in get {
        tab := get["tab"];
      }
      InitSettings(store);
      var view := RenderFields(tab);
      page := Shown(tab, view);
    }

    /**
     * `init_settings`: read the stored settings and copy each stored value
     * into the default of the field of that name.
     */
    method InitSettings(store: Store)
      requires Valid()
      modifies this`settings, this`fields
      ensures Valid()
      ensures settings == Stored(store, settingsId)
      ensures fields == LoadDefaults(old(fields), settings)
    {
      var stored := Stored(store, settingsId);
      var snapshot, loaded := fields, fields;
      for i := 0 to |snapshot.keys|
        invariant loaded.keys == snapshot.keys && loaded.m.Keys == snapshot.m.Keys
        invariant forall t :: t in snapshot.m ==>
                    loaded.m[t] == if t in snapshot.keys[..i] then LoadTab(snapshot.m[t], stored) else snapshot.m[t]
      {
        var tabKey := snapshot.keys[i];
        var tab := snapshot.m[tabKey];
        PrefixStep(snapshot.keys, i);
        var cur := LoadTabValues(tab, stored);
        loaded := loaded.(m := loaded.m[tabKey := cur]);
      }
      assert snapshot.keys[..|snapshot.keys|] == snapshot.keys;
      AllTabsLoaded(snapshot, stored, loaded);
      LoadKeepsWf(snapshot, stored);
      settings, fields := stored, loaded;
    }

    /**
     * `get_option($key, $emptyValue)`: load the settings when there are none
     * yet; an unset key takes the default of the last listed tab holding a
     * field of that name; an empty string gives way to a non-null
     * `$emptyValue`; the result is the setting (null when still unset).
     */
    method GetOption(store: Store, key: string, emptyValue: Option<string>) returns (value: Option<string>)
      requires Valid()
      modifies this`settings, this`fields
      ensures Valid()
      ensures fields == Loaded(old(settings), old(fields), Stored(store, settingsId)).1
      ensures settings == OptionSettings(Loaded(old(settings), old(fields), Stored(store, settingsId)).0,
                                         tabs.keys, fields, key, emptyValue)
      ensures value == ValueAt(settings, key)
    {
      if settings == map[] {
        InitSettings(store);
      }
      ghost var s0 := settings;
      assert s0 == Loaded(old(settings), old(fields), Stored(store, settingsId)).0;
      if !IsSet(settings, key) {
        FillDefault(key);
      }
      OptionSettingsSteps(s0, settings, tabs.keys, fields, key, emptyValue);
      if emptyValue.Some? && key in settings && settings[key] == Some("") {
        settings := settings[key := emptyValue];
      }
      value := ValueAt(settings, key);
    }

    /** The loop of `get_option` that takes the default of the last listed tab registering `key`. */
    method FillDefault(key: string)
      modifies this`settings
      ensures settings == match FindDefault(tabs.keys, fields, key)
                          case Some(d) => old(settings)[key := Some(d)]
                          case None => old(settings)
    {
      var keys, formFields, s := tabs.keys, fields, settings;
      for i := 0 to |keys|
        invariant s == match FindDefault(keys[..i], formFields, key)
                       case Some(d) => settings[key := Some(d)]
                       case None => settings
      {
        assert keys[..i + 1][..i] == keys[..i];
        var tabKey := keys[i];
        if tabKey in formFields.m && key in formFields.m[tabKey].m {
          s := s[key := Some(formFields.m[tabKey].m[key].defaultValue)];
        }
      }
      assert keys[..|keys|] == keys;
      settings := s;
    }

    /** The state `get_option($key)` leaves, starting from settings `s` and fields `f`. */
    ghost predicate AfterGetOption(s: Blob, f: Fields, store: Store, key: string)
      reads this
    {
      && fields == Loaded(s, f, Stored(store, settingsId)).1
      && settings == OptionSettings(Loaded(s, f, Stored(store, settingsId)).0, tabs.keys, fields, key, None)
    }

    /** The value `get_option($key)` returns, starting from settings `s` and fields `f`. */
    ghost function CurrentValue(s: Blob, f: Fields, store: Store, key: string): Option<string>
      reads this
    {
      var loaded := Loaded(s, f, Stored(store, settingsId));
      OptionValue(loaded.0, tabs.keys, loaded.1, key)
    }

    /** `validate_text` */
    method ValidateText(key: string, store: Store, host: Host) returns (text: Option<string>)
      requires Valid()
      modifies this`settings, this`fields
      ensures Valid() && AfterGetOption(old(settings), old(fields), store, key)
      ensures text == Validated(Text, postedData, key, CurrentValue(old(settings), old(fields), store, key), host)
    {
      text := GetOption(store, key, None);
      if key in postedData {
        text := Some(host.ksesPost(Trim(host.stripSlashes(postedData[key]))));
      }
    }

    /** `validate_textarea` */
    method ValidateTextarea(key: string, store: Store, host: Host) returns (text: Option<string>)
      requires Valid()
      modifies this`settings, this`fields
      ensures Valid() && AfterGetOption(old(settings), old(fields), store, key)
      ensures text == Validated(Textarea, postedData, key, CurrentValue(old(settings), old(fields), store, key), host)
    {
      text := GetOption(store, key, None);
      if key in postedData {
        text := Some(host.ksesWithIframe(Trim(host.stripSlashes(postedData[key]))));
      }
    }

    /** `validate_wpeditor` */
    method ValidateWpEditor(key: string, store: Store, host: Host) returns (text: Option<string>)
      requires Valid()
      modifies this`settings, this`fields
      ensures Valid() && AfterGetOption(old(settings), old(fields), store, key)
      ensures text == Validated(WpEditor, postedData, key, CurrentValue(old(settings), old(fields), store, key), host)
    {
      text := GetOption(store, key, None);
      if key in postedData {
        text := Some(host.ksesWithIframe(Trim(host.stripSlashes(postedData[key]))));
      }
    }

    /** `validate_select` */
    method ValidateSelect(key: string, store: Store, host: Host) returns (value: Option<string>)
      requires Valid()
      modifies this`settings, this`fields
      ensures Valid() && AfterGetOption(old(settings), old(fields), store, key)
      ensures value == Validated(Select, postedData, key, CurrentValue(old(settings), old(fields), store, key), host)
    {
      value := GetOption(store, key, None);
      if key in postedData {
        value := Some(host.stripSlashes(postedData[key]));
      }
    }

    /** `validate_radio` */
    method ValidateRadio(key: string, store: Store, host: Host) returns (value: Option<string>)
      requires Valid()
      modifies this`settings, this`fields
      ensures Valid() && AfterGetOption(old(settings), old(fields), store, key)
      ensures value == Validated(Radio, postedData, key, CurrentValue(old(settings), old(fields), store, key), host)
    {
      value := GetOption(store, key, None);
      if key in postedData {
        value := Some(host.stripSlashes(postedData[key]));
      }
    }

    /** `validate_checkbox`: `'1'` exactly when `'1'` was posted; it reads no setting. */
    method ValidateCheckbox(key: string) returns (status: string)
      ensures status == "1" <==> key in postedData && postedData[key] == "1"
      ensures status == "1" || status == ""
    {
      status := "";
      if key in postedData && postedData[key] == "1" {
        status := "1";
      }
    }

    /** `$this->{'validate_' . $type}($key)` for a type that has a validator. */
    method Validate(kind: FieldType, key: string, store: Store, host: Host) returns (v: Option<string>)
      requires Valid() && !kind.Blank?
      modifies this`settings, this`fields
      ensures Valid()
      ensures kind.Checkbox? ==> settings == old(settings) && fields == old(fields)
      ensures !kind.Checkbox? ==> AfterGetOption(old(settings), old(fields), store, key)
      ensures v == Validated(kind, postedData, key, CurrentValue(old(settings), old(fields), store, key), host)
    {
      match kind
      case Text => v := ValidateText(key, store, host);
      case Textarea => v := ValidateTextarea(key, store, host);
      case WpEditor => v := ValidateWpEditor(key, store, host);
      case Select => v := ValidateSelect(key, store, host);
      case Radio => v := ValidateRadio(key, store, host);
      case Checkbox =>
        var status := ValidateCheckbox(key);
        v := Some(status);
    }

    /**
     * `save_settings`: take the posted data, load the settings when there
     * are none, run every field's validator in tab and field order, and write
     * the whole settings array under the settings id.  A field of type
     * `Blank` has no validator: the request dies there and nothing is
     * written.
     */
    method SaveSettings(post: map<string, string>, store: Store, host: Host) returns (newStore: Store, completed: bool)
      requires Valid()
      modifies this`postedData, this`settings, this`fields
      ensures Valid()
      ensures postedData == post
      ensures fields == Loaded(old(settings), old(fields), Stored(store, settingsId)).1
      ensures completed ==
              SaveFold(Loaded(old(settings), old(fields), Stored(store, settingsId)).0, Entries(fields), tabs.keys, fields, post, host).Some?
      ensures completed ==>
              && Some(settings) ==
                 SaveFold(Loaded(old(settings), old(fields), Stored(store, settingsId)).0, Entries(fields), tabs.keys, fields, post, host)
              && newStore == store[settingsId := settings]
      ensures !completed ==> newStore == store
    {
      ghost var loaded := Loaded(settings, fields, Stored(store, settingsId));
      postedData := post;
      if settings == map[] {
        InitSettings(store);
      }
      ghost var s0 := settings;
      assert s0 == loaded.0 && fields == loaded.1;
      completed := SaveTabs(s0, store, host);
      if completed {
        newStore := store[settingsId := settings];
      } else {
        newStore := store;
      }
    }

    /** The outer loop of `save_settings`, over the tabs in order; it stops at the first `Blank` field. */
    method SaveTabs(ghost s0: Blob, store: Store, host: Host) returns (ok: bool)
      requires Valid() && settings == s0
      requires settings == map[] ==> Stored(store, settingsId) == map[]
      modifies this`settings, this`fields
      ensures Valid() && fields == old(fields)
      ensures ok == SaveFold(s0, Entries(fields), tabs.keys, fields, postedData, host).Some?
      ensures ok ==> Some(settings) == SaveFold(s0, Entries(fields), tabs.keys, fields, postedData, host)
    {
      var snapshot := fields;
      for i := 0 to |snapshot.keys|
        invariant Valid() && fields == snapshot
        invariant SaveFold(s0, EntriesOf(snapshot, snapshot.keys[..i]), tabs.keys, snapshot, postedData, host) == Some(settings)
        invariant settings == map[] ==> Stored(store, settingsId) == map[]
      {
        var tabKey := snapshot.keys[i];
        ok := SaveTab(snapshot.m[tabKey], s0, EntriesOf(snapshot, snapshot.keys[..i]), store, host);
        if !ok {
          var name :| name in snapshot.m[tabKey].m && snapshot.m[tabKey].m[name].kind.Blank?;
          BlankStopsSave(s0, snapshot, tabKey, name, postedData, store, host);
          return false;
        }
        assert snapshot.keys[..i + 1][..i] == snapshot.keys[..i];
      }
      assert snapshot.keys[..|snapshot.keys|] == snapshot.keys;
      return true;
    }

    /**
     * The inner loop of `save_settings` over the fields of one tab.  It
     * stops, reporting failure, at the first `Blank` field.
     */
    method SaveTab(tab: Tab, ghost s0: Blob, ghost done: seq<Entry>, store: Store, host: Host) returns (ok: bool)
      requires Valid() && OrderedMaps.Valid(tab)
      requires SaveFold(s0, done, tabs.keys, fields, postedData, host) == Some(settings)
      requires settings == map[] ==> Stored(store, settingsId) == map[]
      modifies this`settings, this`fields
      ensures Valid() && fields == old(fields)
      ensures ok ==> SaveFold(s0, done + TabEntries(tab, tab.keys), tabs.keys, fields, postedData, host) == Some(settings)
      ensures ok ==> settings == map[] ==> Stored(store, settingsId) == map[]
      ensures !ok ==> exists n :: n in tab.m && tab.m[n].kind.Blank?
    {
      ghost var f := fields;
      assert done + TabEntries(tab, tab.keys[..0]) == done;
      for j := 0 to |tab.keys|
        invariant Valid() && fields == f
        invariant SaveFold(s0, done + TabEntries(tab, tab.keys[..j]), tabs.keys, f, postedData, host) == Some(settings)
        invariant settings == map[] ==> Stored(store, settingsId) == map[]
      {
        var name := tab.keys[j];
        var field := tab.m[name];
        if field.kind.Blank? {
          return false;
        }
        SaveNext(tab, j, s0, done, store, host);
      }
      assert tab.keys[..|tab.keys|] == tab.keys;
      return true;
    }

    /** One iteration of the inner loop of `save_settings`: the `j`-th field of `tab` is saved. */
    method SaveNext(tab: Tab, j: nat, ghost s0: Blob, ghost done: seq<Entry>, store: Store, host: Host)
      requires Valid() && OrderedMaps.Valid(tab) && j < |tab.keys| && !tab.m[tab.keys[j]].kind.Blank?
      requires SaveFold(s0, done + TabEntries(tab, tab.keys[..j]), tabs.keys, fields, postedData, host) == Some(settings)
      requires settings == map[] ==> Stored(store, settingsId) == map[]
      modifies this`settings, this`fields
      ensures Valid() && fields == old(fields) && settings != map[]
      ensures SaveFold(s0, done + TabEntries(tab, tab.keys[..j + 1]), tabs.keys, fields, postedData, host) == Some(settings)
    {
      var name := tab.keys[j];
      ghost var before := settings;
      SaveField(name, tab.m[name].kind, store, host);
      SaveFoldStep(s0, done, tab, j, before, tabs.keys, fields, postedData, host);
    }

    /** One step of the loop of `save_settings`: validate one field and store the result under its name. */
    method SaveField(name: string, kind: FieldType, store: Store, host: Host)
      requires Valid() && !kind.Blank?
      requires settings == map[] ==> Stored(store, settingsId) == map[]
      modifies this`settings, this`fields
      ensures Valid() && fields == old(fields)
      ensures settings == old(settings)[name := Validated(kind, postedData, name, OptionValue(old(settings), tabs.keys, old(fields), name), host)]
    {
      ghost var s0, f0 := settings, fields;
      var v := Validate(kind, name, store, host);
      StoreOverOption(s0, f0, Stored(store, settingsId), tabs.keys, name, v);
      settings := settings[name := v];
    }

    /** A registered `Blank` field makes the save of the whole registry fail. */
    lemma BlankStopsSave(s0: Blob, f: Fields, tabKey: string, name: string, post: map<string, string>, store: Store, host: Host)
      requires Wf(f) && tabKey in f.m && name in f.m[tabKey].m && f.m[tabKey].m[name].kind.Blank?
      ensures SaveFold(s0, Entries(f), tabs.keys, f, post, host).None?
    {
      EntriesOfMembers(f, f.keys);
      SaveFoldCompletes(s0, Entries(f), tabs.keys, f, post, host);
      assert RegisteredIn(f, f.keys, Entry(name, Blank));
    }

    /**
     * `add_field($args, $tab)`: the type guard, the defaults merge, the empty
     * name check, the check that no tab holds the name yet, the option
     * default, and the store at the end of the tab.
     */
    method AddField(args: FieldArgs, tab: string := "general")
      requires Valid()
      modifies this`fields
      ensures Valid()
      ensures fields == AddFieldSpec(old(fields), args, tab)
    {
      if args.kind.Some? && args.kind.value != "" && ParseType(args.kind.value).None? {
        return;
      }
      var name := args.name.GetOr("");
      if name == "" {
        return;
      }
      var taken := IsFieldNameTaken(name);
      if taken {
        return;
      }
      var kind := if args.kind.Some? then ParseType(args.kind.value).value else Text;
      var options := args.options.GetOr(Empty());
      var default := args.defaultValue.GetOr("");
      if options.keys != [] && default == "" {
        default := options.keys[0];
      }
      var field := Field(name, args.title.GetOr(""), default, args.placeholder.GetOr(""), kind, options, args.desc.GetOr(""));
      assert Prepare(args) == Some(field);
      StoreField(tab, field);
    }

    /** The end of `add_field`: the tab is created when missing and the field appended to it. */
    method StoreField(tab: string, field: Field)
      requires Valid() && field.name !in Names(fields)
      modifies this`fields
      ensures Valid()
      ensures fields == Put(old(fields), tab, Put(TabOf(old(fields), tab), field.name, field))
    {
      ghost var before := fields;
      if tab !in fields.m {
        fields := Put(fields, tab, Empty());
      }
      fields := Put(fields, tab, Put(fields.m[tab], field.name, field));
      assert fields == Put(before, tab, Put(TabOf(before, tab), field.name, field));
      InsertKeepsWf(before, tab, field);
    }

    /** The loop of `add_field` that looks for the name under every tab. */
    method IsFieldNameTaken(name: string) returns (taken: bool)
      requires Valid()
      ensures taken <==> name in Names(fields)
    {
      for i := 0 to |fields.keys|
        invariant forall k :: 0 <= k < i ==> name !in fields.m[fields.keys[k]].m
      {
        if name in fields.m[fields.keys[i]].m {
          return true;
        }
      }
      forall t | t in fields.m ensures name !in fields.m[t].m {
        var k :| 0 <= k < |fields.keys| && fields.keys[k] == t;
      }
      return false;
    }

    /** `add_tab($options)` */
    method AddTab(options: map<string, string>)
      requires Valid()
      modifies this`tabs
      ensures Valid()
      ensures tabs == AddTabSpec(old(tabs), options)
    {
      var slug, title := Get(options, "slug"), Get(options, "title");
      if slug == "" || title == "" {
        return;
      }
      tabs := Put(tabs, slug, title);
    }

    /** `render_fields($tab)`, as the controls it prints. */
    method RenderFields(tab: string) returns (view: Rendering)
      requires Valid()
      ensures view == RenderSpec(fields, tab)
    {
      if tab !in fields.m {
        return NoSettings;
      }
      view := RenderTabFields(fields.m[tab]);
    }
  }

  /** The loop of `render_fields` over the fields of one tab; a `Blank` field stops it. */
  method RenderTabFields(t: Tab) returns (view: Rendering)
    requires OrderedMaps.Valid(t)
    ensures view == RenderTab(t, t.keys)
  {
    var items: seq<Control> := [];
    for j := 0 to |t.keys|
      invariant RenderTab(t, t.keys[..j]) == Controls(items)
    {
      assert t.keys[..j + 1][..j] == t.keys[..j];
      var field := t.m[t.keys[j]];
      if field.kind.Blank? {
        RenderStops(t, t.keys, j + 1);
        return Aborted(items);
      }
      items := items + [Control(field.kind, field.name, field.defaultValue)];
    }
    assert t.keys[..|t.keys|] == t.keys;
    view := Controls(items);
  }

  /** The inner loop of `init_settings`: the stored value, when set, becomes the default of the field of that name. */
  method LoadTabValues(tab: Tab, stored: Blob) returns (cur: Tab)
    requires OrderedMaps.Valid(tab)
    ensures cur == LoadTab(tab, stored)
  {
    cur := tab;
    for j := 0 to |tab.keys|
      invariant LoadedUpTo(tab, stored, cur, j)
    {
      var name := tab.keys[j];
      LoadNext(tab, stored, cur, j);
      if IsSet(stored, name) {
        cur := cur.(m := cur.m[name := cur.m[name].(defaultValue := stored[name].value)]);
      }
    }
    assert tab.keys[..|tab.keys|] == tab.keys;
    assert cur.m == LoadTab(tab, stored).m;
  }

  /** The fields of `tab` listed before position `j` have been loaded from `stored`, the others not yet. */
  ghost predicate LoadedUpTo(tab: Tab, stored: Blob, cur: Tab, j: nat)
    requires j <= |tab.keys|
  {
    && cur.keys == tab.keys && cur.m.Keys == tab.m.Keys
    && forall n :: n in tab.m ==>
         cur.m[n] == if n in tab.keys[..j] then LoadField(tab.m[n], stored, n) else tab.m[n]
  }

  /** One iteration of the inner loop of `init_settings` loads the `j`-th field. */
  lemma LoadNext(tab: Tab, stored: Blob, cur: Tab, j: nat)
    requires OrderedMaps.Valid(tab) && j < |tab.keys| && LoadedUpTo(tab, stored, cur, j)
    ensures var name := tab.keys[j];
            LoadedUpTo(tab, stored, if IsSet(stored, name) then cur.(m := cur.m[name := cur.m[name].(defaultValue := stored[name].value)]) else cur, j + 1)
  {
    var name := tab.keys[j];
    PrefixStep(tab.keys, j);
    forall k | 0 <= k < j ensures tab.keys[..j][k] != name {
      assert tab.keys[..j][k] == tab.keys[k];
    }
    assert name in tab.m && cur.m[name] == tab.m[name];
  }

  /** Saving one more field of a tab extends the fold by that field's validated value. */
  lemma SaveFoldStep(s0: Blob, done: seq<Entry>, tab: Tab, j: nat, before: Blob, tabKeys: seq<string>, f: Fields,
                     posted: map<string, string>, host: Host)
    requires OrderedMaps.Valid(tab) && j < |tab.keys| && !tab.m[tab.keys[j]].kind.Blank?
    requires SaveFold(s0, done + TabEntries(tab, tab.keys[..j]), tabKeys, f, posted, host) == Some(before)
    ensures var name := tab.keys[j];
            var kind := tab.m[name].kind;
            SaveFold(s0, done + TabEntries(tab, tab.keys[..j + 1]), tabKeys, f, posted, host)
            == Some(before[name := Validated(kind, posted, name, OptionValue(before, tabKeys, f, name), host)])
  {
    var e := Entry(tab.keys[j], tab.m[tab.keys[j]].kind);
    TabEntriesNext(tab, j);
    var es := done + TabEntries(tab, tab.keys[..j + 1]);
    assert es == (done + TabEntries(tab, tab.keys[..j])) + [e];
    assert es[..|es| - 1] == done + TabEntries(tab, tab.keys[..j]);
  }

  /** The entries of one more field of a tab: that field's entry goes last. */
  lemma TabEntriesNext(tab: Tab, j: nat)
    requires OrderedMaps.Valid(tab) && j < |tab.keys|
    ensures TabEntries(tab, tab.keys[..j + 1]) == TabEntries(tab, tab.keys[..j]) + [Entry(tab.keys[j], tab.m[tab.keys[j]].kind)]
  {
    PrefixStep(tab.keys, j);
  }

  /** `OptionSettings` as the two steps of `get_option`: fill an unset key, then replace an empty string. */
  lemma OptionSettingsSteps(s0: Blob, s1: Blob, tabKeys: seq<string>, f: Fields, key: string, emptyValue: Option<string>)
    requires s1 == if IsSet(s0, key) then s0
                   else match FindDefault(tabKeys, f, key)
                     case Some(d) => s0[key := Some(d)]
                     case None => s0
    ensures OptionSettings(s0, tabKeys, f, key, emptyValue)
            == if emptyValue.Some? && key in s1 && s1[key] == Some("") then s1[key := emptyValue] else s1
  {
  }

  /** Once rendering a prefix of a tab has stopped, rendering the whole tab stops with the same output. */
  lemma {:induction false} RenderStops(tab: Tab, ks: seq<string>, n: nat)
    requires (forall k :: k in ks ==> k in tab.m) && n <= |ks|
    requires RenderTab(tab, ks[..n]).Aborted?
    ensures RenderTab(tab, ks) == RenderTab(tab, ks[..n])
    decreases |ks| - n
  {
    if n < |ks| {
      assert ks[..n + 1][..n] == ks[..n];
      RenderStops(tab, ks, n + 1);
    } else {
      assert ks[..n] == ks;
    }
  }

  /**
   * `new WordPressMenuTab($options, $menu)`: a tab that registers itself
   * with its menu and forwards fields to it under its own slug.
   */
  class WordPressMenuTab {
    const slug: string
    const title: string
    const menu: WordPressMenu

    constructor (options: map<string, string>, menu: WordPressMenu)
      requires menu.Valid()
      modifies menu`tabs
      ensures this.slug == Get(options, "slug") && this.title == Get(options, "title") && this.menu == menu
      ensures menu.Valid()
      ensures menu.tabs == AddTabSpec(old(menu.tabs), options)
    {
      slug := Get(options, "slug");
      title := Get(options, "title");
      this.menu := menu;
      new;
      menu.AddTab(options);
    }

    /** `add_field($args)`: the menu's `add_field` under this tab's slug. */
    method AddField(args: FieldArgs)
      requires menu.Valid()
      modifies menu`fields
      ensures menu.Valid()
      ensures menu.fields == AddFieldSpec(old(menu.fields), args, slug)
    {
      menu.AddField(args, slug);
    }
  }
}
