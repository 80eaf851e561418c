/**
 * The admin side of the plugin (admin/class-as-wp-admin-customization-admin.php):
 * `sanitize_text`, and the registration its constructor performs — the
 * "Admin UI" menu with its general fields, six more tabs each with its
 * fields, and the "Options" sub-menu with one checkbox.  Slugs and names are
 * the values `sanitize_title` gives for the titles used.
 */
module AdminSetup {
  import opened Wrappers
  import opened OrderedMaps
  import opened PhpStrings
  import opened Registry
  import opened Menus

  /** `sanitize_text`: every `_` becomes a space, then `ucwords`. */
  function SanitizeText(s: string): (r: string)
    ensures |r| == |s|
  {
    UcWords(ReplaceChar(s, '_', ' '))
  }

  /**
   * Underscores become spaces, every other character keeps its letter and
   * changes at most its case, a word (after the start, a delimiter or an
   * underscore) never starts in lower case, and no underscore is left.
   */
  lemma SanitizeTextShape(s: string)
    ensures var r := SanitizeText(s);
            && (forall i :: 0 <= i < |s| && s[i] == '_' ==> r[i] == ' ')
            && (forall i :: 0 <= i < |s| && s[i] != '_' ==> ToLowerChar(r[i]) == ToLowerChar(s[i]))
            && (forall i :: 0 <= i < |s| && s[i] != '_' && (i == 0 || s[i - 1] == '_' || IsWordDelimiter(s[i - 1])) ==>
                  !IsLower(r[i]))
            && (forall i :: 0 <= i < |s| && s[i] != '_' && !(i == 0 || s[i - 1] == '_' || IsWordDelimiter(s[i - 1])) ==>
                  r[i] == s[i])
            && (forall i :: 0 <= i < |r| ==> r[i] != '_')
  {
    forall i | 0 <= i < |s| {
      SanitizeCharAt(s, i);
    }
  }

  /** `SanitizeTextShape` at one position. */
  lemma SanitizeCharAt(s: string, i: int)
    requires 0 <= i < |s|
    ensures var r := SanitizeText(s);
            && (s[i] == '_' ==> r[i] == ' ')
            && (s[i] != '_' ==> ToLowerChar(r[i]) == ToLowerChar(s[i]))
            && (s[i] != '_' && (i == 0 || s[i - 1] == '_' || IsWordDelimiter(s[i - 1])) ==> !IsLower(r[i]))
            && (s[i] != '_' && !(i == 0 || s[i - 1] == '_' || IsWordDelimiter(s[i - 1])) ==> r[i] == s[i])
            && r[i] != '_'
  {
    var spaced := ReplaceChar(s, '_', ' ');
    CaseKeepsSpaces(spaced[i]);
    assert spaced[i] == if s[i] == '_' then ' ' else s[i];
    assert SanitizeText(s)[i] == if StartsWord(spaced, i) then ToUpperChar(spaced[i]) else spaced[i];
    if i > 0 {
      assert spaced[i - 1] == if s[i - 1] == '_' then ' ' else s[i - 1];
    }
  }

  /** Sanitising twice is sanitising once. */
  lemma SanitizeTextIdempotent(s: string)
    ensures SanitizeText(SanitizeText(s)) == SanitizeText(s)
  {
    var r := SanitizeText(s);
    var spaced := ReplaceChar(s, '_', ' ');
    assert ReplaceChar(r, '_', ' ') == r;
    assert r == UcWords(spaced);
    forall i | 0 <= i < |r| ensures UcWords(r)[i] == r[i] {
      CaseKeepsSpaces(spaced[i]);
      if i > 0 {
        CaseKeepsSpaces(spaced[i - 1]);
      }
    }
  }

  /** The set of the names listed in `names`. */
  function Elements(names: seq<string>): set<string> {
    set n | n in names
  }

  /** The names the argument arrays `args` register. */
  function ArgNames(args: seq<FieldArgs>): (r: seq<string>)
    ensures |r| == |args|
    ensures forall i :: 0 <= i < |args| ==> r[i] == args[i].name.GetOr("")
  {
    seq(|args|, i requires 0 <= i < |args| => args[i].name.GetOr(""))
  }

  /**
   * What registering one tab's fields leaves: every earlier tab exactly as
   * it was, the tab appended to the list with `names` in order, and the
   * registered names grown by just `names`.
   */
  ghost predicate AddedTab(before: Fields, after: Fields, slug: string, names: seq<string>) {
    && Wf(after)
    && slug !in before.m
    && after.keys == before.keys + [slug]
    && slug in after.m && after.m[slug].keys == names
    && Names(after) == Names(before) + Elements(names)
    && (forall t :: t in before.m ==> t in after.m && after.m[t] == before.m[t])
  }

  /**
   * `array( TRUE => 'Yes', FALSE => 'No' )` and its reverse: PHP stores the
   * boolean keys as the integers 1 and 0, written here as strings.
   */
  const YesFirst: OMap<string, string> := OMap(["1", "0"], map["1" := "Yes", "0" := "No"])
  const NoFirst: OMap<string, string> := OMap(["0", "1"], map["1" := "Yes", "0" := "No"])

  /** The options of the `slider-mode` select. */
  const SliderModes: OMap<string, string> :=
    OMap(["horizontal", "vertical", "fade"], map["horizontal" := "Horizontal", "vertical" := "Vertical", "fade" := "Fade"])

  /** Those option arrays are well-formed ordered arrays. */
  lemma OptionArraysValid()
    ensures OrderedMaps.Valid(YesFirst) && OrderedMaps.Valid(NoFirst) && OrderedMaps.Valid(SliderModes)
  {
  }

  /** The fields of the general tab, in registration order. */
  const GeneralFields: seq<FieldArgs> := [
    FieldArgs(Some("favicon"), Some("Favicon"), None, None, None, None, Some("Favicon of site.")),
    FieldArgs(Some("remove-wordpress-logo"), Some("Remove Wordpress Logo"), None, None, Some("radio"), Some(YesFirst), Some("Remove wordpress logo from TLS.")),
    FieldArgs(Some("replace-howdy-text"), Some("Replace Howdy Text"), None, None, None, None, Some("Change \"Howdy\" Text from Top Right Section of admin area")),
    FieldArgs(Some("remove-dashboard-widget"), Some("Remove Dashboard Widget"), None, None, Some("radio"), Some(NoFirst), Some("Remove dashboard widgets")),
    FieldArgs(Some("reorder-admin-menu-items"), Some("Reorder Admin Menu Items"), None, None, Some("radio"), Some(NoFirst), Some("Re-arrange menu item order of admin's menu")),
    FieldArgs(Some("disable-comments"), Some("Disable Comments"), None, None, Some("radio"), Some(NoFirst), Some("Disable Comments")),
    FieldArgs(Some("disable-updates"), Some("Disable Updates"), None, None, Some("radio"), Some(NoFirst), Some("Disable Updates"))]

  /** The fields of the login-screen tab. */
  const LoginScreenFields: seq<FieldArgs> := [
    FieldArgs(Some("logo-url"), Some("Logo Url"), None, None, None, None, Some("User will redirect to this page once they click on logo.")),
    FieldArgs(Some("logo-title"), Some("Logo Title"), None, None, None, None, Some("Text will display once user hover mouse on logo.")),
    FieldArgs(Some("check-remember-me-always"), Some("Check Remember Me Always"), None, None, Some("radio"), Some(YesFirst), Some("'Remember me' option always be checked. ")),
    FieldArgs(Some("contact-no"), Some("Contact No"), None, None, None, None, Some("Text will display once user hover mouse on logo.")),
    FieldArgs(Some("email"), Some("Email"), None, None, None, None, Some("Text will display once user hover mouse on logo.")),
    FieldArgs(Some("website"), Some("Website"), None, None, None, None, Some("Text will display once user hover mouse on logo."))]

  /** The fields of the users-profile tab. */
  const UsersProfileFields: seq<FieldArgs> := [
    FieldArgs(Some("users-contact-no"), Some("User's Contact No"), None, None, Some("radio"), Some(NoFirst), Some("Add Contact No. field in user's profile")),
    FieldArgs(Some("users-facebook-link"), Some("User's Facebook Link"), None, None, Some("radio"), Some(NoFirst), Some("Add Facebook profile link in user's profile")),
    FieldArgs(Some("users-twitter-link"), Some("User's Twitter Link"), None, None, Some("radio"), Some(NoFirst), Some("Add Twitter profile link in user's profile")),
    FieldArgs(Some("users-linkedin-link"), Some("User's Linkedin Link"), None, None, Some("radio"), Some(NoFirst), Some("Add Linkedin profile link in user's profile"))]

  /** The fields of the php-mailer tab. */
  const PhpMailerFields: seq<FieldArgs> := [
    FieldArgs(Some("smtp-enabled"), Some("Smtp Enabled"), None, None, Some("radio"), Some(NoFirst), Some("Enable or disable SMTP support.")),
    FieldArgs(Some("smtp-host"), Some("Smtp Host"), None, None, None, None, Some("domainname.com")),
    FieldArgs(Some("smtp-port"), Some("Smtp Port"), None, None, None, None, Some("25")),
    FieldArgs(Some("smtp-username"), Some("Smtp Username"), None, None, None, None, Some("username@yourdomain.com")),
    FieldArgs(Some("smtp-password"), Some("Smtp Password"), None, None, None, None, Some("*******")),
    FieldArgs(Some("smtp-secure"), Some("Smtp Secure"), None, None, None, None, Some("Choose SSL or TLS, if necessary for your server, Themes & Plugins.")),
    FieldArgs(Some("smtp-email-id"), Some("Smtp Email Id"), None, None, None, None, Some("no-reply@domainname.com")),
    FieldArgs(Some("smtp-email-name"), Some("Smtp Email Name"), None, None, None, None, Some("Your Name"))]

  /** The fields of the slider tab; `slider-mode` is a select without a description. */
  const SliderFields: seq<FieldArgs> := [
    FieldArgs(Some("slider-enabled"), Some("Slider Enabled"), None, None, Some("radio"), Some(NoFirst), Some("Enable or disable image slider.")),
    FieldArgs(Some("slider-mode"), Some("Slider Mode"), None, None, Some("select"), Some(SliderModes), None),
    FieldArgs(Some("slider-autoplay"), Some("Slider Autoplay"), None, None, Some("radio"), Some(NoFirst), Some("Autoplay slider images")),
    FieldArgs(Some("slider-captions"), Some("Slider Captions"), None, None, Some("radio"), Some(NoFirst), Some("Display caption on slider images")),
    FieldArgs(Some("slider-pagination"), Some("Slider Pagination"), None, None, Some("radio"), Some(NoFirst), Some("Display pagination on slider images")),
    FieldArgs(Some("slider-controls"), Some("Slider Controls"), None, None, Some("radio"), Some(NoFirst), Some("Display controls on slider images")),
    FieldArgs(Some("slider-speed"), Some("Slider Speed"), None, None, None, None, Some("Slider Speed <b>(1 Sec = 100)</b>"))]

  /** The fields of the google-services tab. */
  const GoogleServicesFields: seq<FieldArgs> := [
    FieldArgs(Some("google-webmaster"), Some("Google Webmaster"), None, None, None, None, Some("xxxxxxxxxxxxxxxx")),
    FieldArgs(Some("google-analytics"), Some("Google Analytics"), None, None, None, None, Some("UA-60XXXXX3-X")),
    FieldArgs(Some("recaptcha-site-key"), Some("reCAPTCHA - (Site key)"), None, None, None, None, Some("xxxxxxxxxxxxxxxxxx")),
    FieldArgs(Some("recaptcha-secret-key"), Some("reCAPTCHA - (Secret key)"), None, None, None, None, Some(" xxxxxxxxxxxxxxxxxx"))]

  /** The fields of the html-sitemap tab; the textarea's `rows` and `cols` keys are not modelled. */
  const HtmlSitemapFields: seq<FieldArgs> := [
    FieldArgs(Some("html-sitemap-enabled"), Some("Html Sitemap Enabled"), None, None, Some("radio"), Some(YesFirst), Some("Enable HTML Sitemap for website. Use shortcode - <b>[html_sitemap]</b>.")),
    FieldArgs(Some("html-sitemap-pages-to-exclude"), Some("Html Sitemap Pages To Exclude"), None, None, Some("textarea"), None,
              Some("Page Title, which you want to exclude from sitemap. Write each name in seperated by new line."))]

  /** The one field of the "Options" sub-menu. */
  const SubMenuField: FieldArgs :=
    FieldArgs(Some("field"), Some("Field"), None, None, Some("checkbox"), None, Some("Check it to wake it"))

  /** Field `args` is registered under `tab` exactly as `add_field` prepares it. */
  ghost predicate Registered(f: Fields, tab: string, args: FieldArgs) {
    && tab in f.m && Prepare(args).Some?
    && args.name.value in f.m[tab].m && f.m[tab].m[args.name.value] == Prepare(args).value
  }

  /** Every argument array of `args` is registered in `tab` exactly as `add_field` prepares it. */
  ghost predicate TabHolds(tab: Tab, args: seq<FieldArgs>) {
    forall a :: a in args ==> Prepare(a).Some? && a.name.value in tab.m && tab.m[a.name.value] == Prepare(a).value
  }

  /** `TabHolds` is `Registered` for each argument array. */
  lemma HoldsIffRegistered(f: Fields, tab: string, args: seq<FieldArgs>)
    requires tab in f.m
    ensures TabHolds(f.m[tab], args) <==> forall a :: a in args ==> Registered(f, tab, a)
  {
  }

  /** `setup_parent_menu`: the "Admin UI" top-level menu. */
  method SetupParentMenu() returns (menu: WordPressMenu)
    ensures fresh(menu) && menu.Valid()
    ensures menu.settingsId == "admin-ui" && menu.parentId == None
    ensures menu.tabs == InitialTabs() && menu.fields == Empty() && menu.settings == map[]
  {
    menu := new WordPressMenu(map["title" := "Admin UI", "slug" := "admin-ui", "desc" := "Settings for admin area.",
                                  "icon" := "dashicons-welcome-widgets-menus", "position" := "99"]);
  }

  /** Argument arrays `add_field` accepts, with pairwise different names. */
  ghost predicate FreshArgs(args: seq<FieldArgs>) {
    && (forall a :: a in args ==> Prepare(a).Some?)
    && (forall i, j :: 0 <= i < j < |args| ==> ArgNames(args)[i] != ArgNames(args)[j])
  }

  /** Accepted argument arrays whose names, in order, are the pairwise different `names`. */
  lemma FreshFromNames(args: seq<FieldArgs>, names: seq<string>)
    requires forall a :: a in args ==> Prepare(a).Some?
    requires ArgNames(args) == names
    requires forall i, j :: 0 <= i < j < |names| ==> names[i] != names[j]
    ensures FreshArgs(args)
  {
  }

  /** The fields after `add_field` has been called with each of `args`, in order, under `tab`. */
  ghost function AddAll(f: Fields, args: seq<FieldArgs>, tab: string): (r: Fields)
    requires Wf(f)
    ensures Wf(r)
    decreases |args|
  {
    if args == [] then f else AddFieldSpec(AddAll(f, args[..|args| - 1], tab), args[|args| - 1], tab)
  }

  /** One more `add_field` call extends the fold by one argument array. */
  lemma AddNext(f: Fields, args: seq<FieldArgs>, k: nat, tab: string)
    requires Wf(f) && k < |args|
    ensures AddFieldSpec(AddAll(f, args[..k], tab), args[k], tab) == AddAll(f, args[..k + 1], tab)
  {
    assert args[..k + 1][..k] == args[..k];
  }

  /**
   * Registering a non-empty list of accepted fields with fresh, pairwise
   * different names under a new tab rejects none of them: the tab is
   * appended with exactly those names, in order, each field as `add_field`
   * prepared it.
   */
  lemma {:induction false} AddAllFresh(f: Fields, args: seq<FieldArgs>, tab: string)
    requires Wf(f) && tab !in f.m && args != []
    requires FreshArgs(args) && Names(f) !! Elements(ArgNames(args))
    ensures AddedTab(f, AddAll(f, args, tab), tab, ArgNames(args))
    ensures forall a :: a in args ==> Registered(AddAll(f, args, tab), tab, a)
    decreases |args|
  {
    var pre, last := args[..|args| - 1], args[|args| - 1];
    assert args == pre + [last];
    if pre == [] {
      assert last in args && AddAll(f, pre, tab) == f;
      assert ArgNames(args) == [last.name.value];
      AddFirstFresh(f, last, tab);
    } else {
      FreshPrefix(args);
      AddAllFresh(f, pre, tab);
      AddLastFresh(f, pre, last, tab);
    }
  }

  /** The step of `AddAllFresh`: a last argument array is accepted after the others. */
  lemma AddLastFresh(f: Fields, pre: seq<FieldArgs>, last: FieldArgs, tab: string)
    requires Wf(f) && pre != []
    requires FreshArgs(pre + [last]) && Names(f) !! Elements(ArgNames(pre + [last]))
    requires AddedTab(f, AddAll(f, pre, tab), tab, ArgNames(pre))
    requires forall a :: a in pre ==> Registered(AddAll(f, pre, tab), tab, a)
    ensures AddedTab(f, AddAll(f, pre + [last], tab), tab, ArgNames(pre + [last]))
    ensures forall a :: a in pre + [last] ==> Registered(AddAll(f, pre + [last], tab), tab, a)
  {
    var args := pre + [last];
    assert args[..|args| - 1] == pre;
    assert last in args;
    var name := last.name.value;
    ArgNamesAppend(pre, last);
    var g := AddAll(f, pre, tab);
    assert AddAll(f, args, tab) == AddFieldSpec(g, last, tab);
    LastNameFresh(pre, last);
    AddOneFresh(f, g, ArgNames(pre), last, tab);
    KeepRegistered(g, AddFieldSpec(g, last, tab), pre, name, tab);
  }

  /** The names of `pre + [last]` are those of `pre` followed by that of `last`. */
  lemma ArgNamesAppend(pre: seq<FieldArgs>, last: FieldArgs)
    ensures ArgNames(pre + [last]) == ArgNames(pre) + [last.name.GetOr("")]
  {
  }

  /** In a list with pairwise different names, the last name is not among the others. */
  lemma LastNameFresh(pre: seq<FieldArgs>, last: FieldArgs)
    requires FreshArgs(pre + [last])
    ensures last.name.GetOr("") !in Elements(ArgNames(pre))
  {
    var args := pre + [last];
    forall i | 0 <= i < |pre| ensures ArgNames(pre)[i] != last.name.GetOr("") {
      assert ArgNames(pre)[i] == ArgNames(args)[i];
      assert ArgNames(args)[|pre|] == last.name.GetOr("");
    }
  }

  /** Fields registered before a field with another name is added stay registered. */
  lemma KeepRegistered(g: Fields, h: Fields, pre: seq<FieldArgs>, name: string, tab: string)
    requires forall a :: a in pre ==> Registered(g, tab, a)
    requires forall b :: Registered(g, tab, b) && b.name.value != name ==> Registered(h, tab, b)
    requires name !in Elements(ArgNames(pre))
    ensures forall a :: a in pre ==> Registered(h, tab, a)
  {
    forall a | a in pre ensures Registered(h, tab, a) {
      var i :| 0 <= i < |pre| && pre[i] == a;
      assert ArgNames(pre)[i] in Elements(ArgNames(pre));
    }
  }

  /** The first field of a new tab. */
  lemma AddFirstFresh(f: Fields, a: FieldArgs, tab: string)
    requires Wf(f) && tab !in f.m && Prepare(a).Some? && a.name.value !in Names(f)
    ensures AddedTab(f, AddFieldSpec(f, a, tab), tab, [a.name.value])
    ensures Registered(AddFieldSpec(f, a, tab), tab, a)
  {
    assert Elements([a.name.value]) == {a.name.value};
  }

  /** One more field on a tab already added: the earlier fields stay registered. */
  lemma AddOneFresh(f: Fields, g: Fields, names: seq<string>, a: FieldArgs, tab: string)
    requires Wf(f) && AddedTab(f, g, tab, names) && Prepare(a).Some? && a.name.value !in Names(g)
    ensures AddedTab(f, AddFieldSpec(g, a, tab), tab, names + [a.name.value])
    ensures Registered(AddFieldSpec(g, a, tab), tab, a)
    ensures forall b :: Registered(g, tab, b) && b.name.value != a.name.value ==> Registered(AddFieldSpec(g, a, tab), tab, b)
  {
    var name := a.name.value;
    var r := AddFieldSpec(g, a, tab);
    assert tab in g.m;
    assert r.keys == g.keys == f.keys + [tab];
    assert r.m[tab].keys == names + [name];
    assert Elements(names + [name]) == Elements(names) + {name};
    assert Names(r) == Names(f) + Elements(names + [name]);
  }

  /** Dropping the last argument array keeps the rest acceptable and pairwise different. */
  lemma FreshPrefix(args: seq<FieldArgs>)
    requires FreshArgs(args) && args != []
    ensures FreshArgs(args[..|args| - 1])
  {
    var pre := args[..|args| - 1];
    forall a | a in pre ensures Prepare(a).Some? {
      assert a in args;
    }
    forall i, j | 0 <= i < j < |pre| ensures ArgNames(pre)[i] != ArgNames(pre)[j] {
      assert ArgNames(pre)[i] == ArgNames(args)[i] && ArgNames(pre)[j] == ArgNames(args)[j];
    }
  }

  /**
   * `$menu->add_field($args[k])` on the general tab, seen as the next step of
   * the fold over `args`.
   */
  method AddGeneralField(menu: WordPressMenu, ghost f0: Fields, args: seq<FieldArgs>, k: nat, next: nat)
    requires menu.Valid() && Wf(f0) && k < |args| && next == k + 1 && menu.fields == AddAll(f0, args[..k], "general")
    modifies menu`fields
    ensures menu.Valid() && menu.fields == AddAll(f0, args[..next], "general")
  {
    menu.AddField(args[k]);
    AddNext(f0, args, k, "general");
  }

  /** `$tab->add_field($args[k])`, seen as the next step of the fold over `args`. */
  method AddTabField(tab: WordPressMenuTab, ghost f0: Fields, args: seq<FieldArgs>, k: nat, next: nat)
    requires tab.menu.Valid() && Wf(f0) && k < |args| && next == k + 1 && tab.menu.fields == AddAll(f0, args[..k], tab.slug)
    modifies tab.menu`fields
    ensures tab.menu.Valid() && tab.menu.fields == AddAll(f0, args[..next], tab.slug)
  {
    tab.AddField(args[k]);
    AddNext(f0, args, k, tab.slug);
  }

  /** `setup_fields_for_parent_menu`: seven fields on the general tab, none rejected. */
  method SetupFieldsForParentMenu(menu: WordPressMenu)
    requires menu.Valid() && menu.fields == Empty()
    modifies menu`fields
    ensures menu.Valid()
    ensures AddedTab(old(menu.fields), menu.fields, "general", GeneralNames)
    ensures forall a :: a in GeneralFields ==> Registered(menu.fields, "general", a)
  {
    ghost var f0 := menu.fields;
    assert GeneralFields[..0] == [];
    AddGeneralField(menu, f0, GeneralFields, 0, 1);
    AddGeneralField(menu, f0, GeneralFields, 1, 2);
    AddGeneralField(menu, f0, GeneralFields, 2, 3);
    AddGeneralField(menu, f0, GeneralFields, 3, 4);
    AddGeneralField(menu, f0, GeneralFields, 4, 5);
    AddGeneralField(menu, f0, GeneralFields, 5, 6);
    AddGeneralField(menu, f0, GeneralFields, 6, 7);
    assert |GeneralFields| == 7 && Names(f0) == {};
    GeneralFieldsFresh();
    FieldsRegistered(f0, menu.fields, GeneralFields, GeneralNames, 7, "general");
  }

  /** The names of the General fields, in order; they are pairwise different and each argument array is accepted. */
  const GeneralNames: seq<string> := ["favicon", "remove-wordpress-logo", "replace-howdy-text", "remove-dashboard-widget", "reorder-admin-menu-items", "disable-comments", "disable-updates"]

  lemma GeneralFieldsFresh()
    ensures FreshArgs(GeneralFields) && ArgNames(GeneralFields) == GeneralNames
  {
    GeneralNamesListed();
    FreshFromNames(GeneralFields, GeneralNames);
  }

  lemma GeneralNamesListed()
    ensures ArgNames(GeneralFields) == GeneralNames
  {
  }

  /**
   * Registering a whole list of accepted, fresh, pairwise different fields
   * under a new tab, one `add_field` call each, rejects none of them.
   */
  lemma FieldsRegistered(f0: Fields, f: Fields, args: seq<FieldArgs>, names: seq<string>, k: nat, tab: string)
    requires Wf(f0) && tab !in f0.m && args != [] && FreshArgs(args)
    requires ArgNames(args) == names && Names(f0) !! Elements(names)
    requires k == |args| && f == AddAll(f0, args[..k], tab)
    ensures AddedTab(f0, f, tab, names)
    ensures forall a :: a in args ==> Registered(f, tab, a)
    ensures f == AddAll(f0, args, tab)
  {
    assert args[..|args|] == args;
    AddAllFresh(f0, args, tab);
  }

  /** The options array of the Login Screen tab. */
  const LoginScreenTabOptions: map<string, string> := map["title" := "Login Screen", "slug" := "login-screen"]

  /** The Login Screen tab is the second tab of the constructor. */
  lemma LoginScreenIsTab(k: nat)
    requires k == 1
    ensures TabSlugs[k] == "login-screen" && TabNames[k] == LoginScreenNames
    ensures Get(LoginScreenTabOptions, "slug") == "login-screen" && Get(LoginScreenTabOptions, "title") != ""
  {
  }

  /** `setup_login_screen_tab`: the "Login Screen" tab of the menu. */
  method SetupLoginScreenTab(menu: WordPressMenu) returns (tab: WordPressMenuTab)
    requires menu.Valid()
    modifies menu`tabs
    ensures fresh(tab) && tab.menu == menu && tab.slug == "login-screen" && tab.title == "Login Screen"
    ensures menu.Valid() && menu.tabs == AddTabSpec(old(menu.tabs), LoginScreenTabOptions)
  {
    tab := new WordPressMenuTab(LoginScreenTabOptions, menu);
  }

  /** `setup_fields_for_login_screen`: the fields of that tab, none rejected. */
  method SetupFieldsForLoginScreen(tab: WordPressMenuTab)
    requires tab.menu.Valid() && tab.slug !in tab.menu.fields.m
    requires Names(tab.menu.fields) !! Elements(LoginScreenNames)
    modifies tab.menu`fields
    ensures tab.menu.Valid()
    ensures AddedTab(old(tab.menu.fields), tab.menu.fields, tab.slug, LoginScreenNames)
    ensures forall a :: a in LoginScreenFields ==> Registered(tab.menu.fields, tab.slug, a)
  {
    ghost var f0 := tab.menu.fields;
    assert LoginScreenFields[..0] == [];
    AddTabField(tab, f0, LoginScreenFields, 0, 1);
    AddTabField(tab, f0, LoginScreenFields, 1, 2);
    AddTabField(tab, f0, LoginScreenFields, 2, 3);
    AddTabField(tab, f0, LoginScreenFields, 3, 4);
    AddTabField(tab, f0, LoginScreenFields, 4, 5);
    AddTabField(tab, f0, LoginScreenFields, 5, 6);
    assert |LoginScreenFields| == 6;
    LoginScreenFieldsFresh();
    FieldsRegistered(f0, tab.menu.fields, LoginScreenFields, LoginScreenNames, 6, tab.slug);
  }

  /** The names of the LoginScreen fields, in order; they are pairwise different and each argument array is accepted. */
  const LoginScreenNames: seq<string> := ["logo-url", "logo-title", "check-remember-me-always", "contact-no", "email", "website"]

  lemma LoginScreenFieldsFresh()
    ensures FreshArgs(LoginScreenFields) && ArgNames(LoginScreenFields) == LoginScreenNames
  {
    LoginScreenNamesListed();
    FreshFromNames(LoginScreenFields, LoginScreenNames);
  }

  lemma LoginScreenNamesListed()
    ensures ArgNames(LoginScreenFields) == LoginScreenNames
  {
  }

  /** The options array of the User's Profile tab. */
  const UsersProfileTabOptions: map<string, string> := map["title" := "User's Profile", "slug" := "users-profile"]

  /** The User's Profile tab is the third tab of the constructor. */
  lemma UsersProfileIsTab(k: nat)
    requires k == 2
    ensures TabSlugs[k] == "users-profile" && TabNames[k] == UsersProfileNames
    ensures Get(UsersProfileTabOptions, "slug") == "users-profile" && Get(UsersProfileTabOptions, "title") != ""
  {
  }

  /** `setup_users_profile_tab`: the "User's Profile" tab of the menu. */
  method SetupUsersProfileTab(menu: WordPressMenu) returns (tab: WordPressMenuTab)
    requires menu.Valid()
    modifies menu`tabs
    ensures fresh(tab) && tab.menu == menu && tab.slug == "users-profile" && tab.title == "User's Profile"
    ensures menu.Valid() && menu.tabs == AddTabSpec(old(menu.tabs), UsersProfileTabOptions)
  {
    tab := new WordPressMenuTab(UsersProfileTabOptions, menu);
  }

  /** `setup_fields_for_users_profile_tab`: the fields of that tab, none rejected. */
  method SetupFieldsForUsersProfile(tab: WordPressMenuTab)
    requires tab.menu.Valid() && tab.slug !in tab.menu.fields.m
    requires Names(tab.menu.fields) !! Elements(UsersProfileNames)
    modifies tab.menu`fields
    ensures tab.menu.Valid()
    ensures AddedTab(old(tab.menu.fields), tab.menu.fields, tab.slug, UsersProfileNames)
    ensures forall a :: a in UsersProfileFields ==> Registered(tab.menu.fields, tab.slug, a)
  {
    ghost var f0 := tab.menu.fields;
    assert UsersProfileFields[..0] == [];
    AddTabField(tab, f0, UsersProfileFields, 0, 1);
    AddTabField(tab, f0, UsersProfileFields, 1, 2);
    AddTabField(tab, f0, UsersProfileFields, 2, 3);
    AddTabField(tab, f0, UsersProfileFields, 3, 4);
    assert |UsersProfileFields| == 4;
    UsersProfileFieldsFresh();
    FieldsRegistered(f0, tab.menu.fields, UsersProfileFields, UsersProfileNames, 4, tab.slug);
  }

  /** The names of the UsersProfile fields, in order; they are pairwise different and each argument array is accepted. */
  const UsersProfileNames: seq<string> := ["users-contact-no", "users-facebook-link", "users-twitter-link", "users-linkedin-link"]

  lemma UsersProfileFieldsFresh()
    ensures FreshArgs(UsersProfileFields) && ArgNames(UsersProfileFields) == UsersProfileNames
  {
    UsersProfileNamesListed();
    FreshFromNames(UsersProfileFields, UsersProfileNames);
  }

  lemma UsersProfileNamesListed()
    ensures ArgNames(UsersProfileFields) == UsersProfileNames
  {
  }

  /** The options array of the PHP Mailer tab. */
  const PhpMailerTabOptions: map<string, string> := map["title" := "PHP Mailer", "slug" := "php-mailer"]

  /** The PHP Mailer tab is the fourth tab of the constructor. */
  lemma PhpMailerIsTab(k: nat)
    requires k == 3
    ensures TabSlugs[k] == "php-mailer" && TabNames[k] == PhpMailerNames
    ensures Get(PhpMailerTabOptions, "slug") == "php-mailer" && Get(PhpMailerTabOptions, "title") != ""
  {
  }

  /** `setup_php_mailer_tab`: the "PHP Mailer" tab of the menu. */
  method SetupPhpMailerTab(menu: WordPressMenu) returns (tab: WordPressMenuTab)
    requires menu.Valid()
    modifies menu`tabs
    ensures fresh(tab) && tab.menu == menu && tab.slug == "php-mailer" && tab.title == "PHP Mailer"
    ensures menu.Valid() && menu.tabs == AddTabSpec(old(menu.tabs), PhpMailerTabOptions)
  {
    tab := new WordPressMenuTab(PhpMailerTabOptions, menu);
  }

  /** `setup_fields_for_php_mailer_tab`: the fields of that tab, none rejected. */
  method SetupFieldsForPhpMailer(tab: WordPressMenuTab)
    requires tab.menu.Valid() && tab.slug !in tab.menu.fields.m
    requires Names(tab.menu.fields) !! Elements(PhpMailerNames)
    modifies tab.menu`fields
    ensures tab.menu.Valid()
    ensures AddedTab(old(tab.menu.fields), tab.menu.fields, tab.slug, PhpMailerNames)
    ensures forall a :: a in PhpMailerFields ==> Registered(tab.menu.fields, tab.slug, a)
  {
    ghost var f0 := tab.menu.fields;
    assert PhpMailerFields[..0] == [];
    AddTabField(tab, f0, PhpMailerFields, 0, 1);
    AddTabField(tab, f0, PhpMailerFields, 1, 2);
    AddTabField(tab, f0, PhpMailerFields, 2, 3);
    AddTabField(tab, f0, PhpMailerFields, 3, 4);
    AddTabField(tab, f0, PhpMailerFields, 4, 5);
    AddTabField(tab, f0, PhpMailerFields, 5, 6);
    AddTabField(tab, f0, PhpMailerFields, 6, 7);
    AddTabField(tab, f0, PhpMailerFields, 7, 8);
    assert |PhpMailerFields| == 8;
    PhpMailerFieldsFresh();
    FieldsRegistered(f0, tab.menu.fields, PhpMailerFields, PhpMailerNames, 8, tab.slug);
  }

  /** The names of the PhpMailer fields, in order; they are pairwise different and each argument array is accepted. */
  const PhpMailerNames: seq<string> := ["smtp-enabled", "smtp-host", "smtp-port", "smtp-username", "smtp-password", "smtp-secure", "smtp-email-id", "smtp-email-name"]

  lemma PhpMailerFieldsFresh()
    ensures FreshArgs(PhpMailerFields) && ArgNames(PhpMailerFields) == PhpMailerNames
  {
    PhpMailerNamesListed();
    FreshFromNames(PhpMailerFields, PhpMailerNames);
  }

  lemma PhpMailerNamesListed()
    ensures ArgNames(PhpMailerFields) == PhpMailerNames
  {
  }

  /** The options array of the Slider tab. */
  const SliderTabOptions: map<string, string> := map["title" := "Slider", "slug" := "slider"]

  /** The Slider tab is the fifth tab of the constructor. */
  lemma SliderIsTab(k: nat)
    requires k == 4
    ensures TabSlugs[k] == "slider" && TabNames[k] == SliderNames
    ensures Get(SliderTabOptions, "slug") == "slider" && Get(SliderTabOptions, "title") != ""
  {
  }

  /** `setup_slider_tab`: the "Slider" tab of the menu. */
  method SetupSliderTab(menu: WordPressMenu) returns (tab: WordPressMenuTab)
    requires menu.Valid()
    modifies menu`tabs
    ensures fresh(tab) && tab.menu == menu && tab.slug == "slider" && tab.title == "Slider"
    ensures menu.Valid() && menu.tabs == AddTabSpec(old(menu.tabs), SliderTabOptions)
  {
    tab := new WordPressMenuTab(SliderTabOptions, menu);
  }

  /** `setup_fields_for_slider_tab`: the fields of that tab, none rejected. */
  method SetupFieldsForSlider(tab: WordPressMenuTab)
    requires tab.menu.Valid() && tab.slug !in tab.menu.fields.m
    requires Names(tab.menu.fields) !! Elements(SliderNames)
    modifies tab.menu`fields
    ensures tab.menu.Valid()
    ensures AddedTab(old(tab.menu.fields), tab.menu.fields, tab.slug, SliderNames)
    ensures forall a :: a in SliderFields ==> Registered(tab.menu.fields, tab.slug, a)
  {
    ghost var f0 := tab.menu.fields;
    assert SliderFields[..0] == [];
    AddTabField(tab, f0, SliderFields, 0, 1);
    AddTabField(tab, f0, SliderFields, 1, 2);
    AddTabField(tab, f0, SliderFields, 2, 3);
    AddTabField(tab, f0, SliderFields, 3, 4);
    AddTabField(tab, f0, SliderFields, 4, 5);
    AddTabField(tab, f0, SliderFields, 5, 6);
    AddTabField(tab, f0, SliderFields, 6, 7);
    assert |SliderFields| == 7;
    SliderFieldsFresh();
    FieldsRegistered(f0, tab.menu.fields, SliderFields, SliderNames, 7, tab.slug);
  }

  /** The names of the Slider fields, in order; they are pairwise different and each argument array is accepted. */
  const SliderNames: seq<string> := ["slider-enabled", "slider-mode", "slider-autoplay", "slider-captions", "slider-pagination", "slider-controls", "slider-speed"]

  lemma SliderFieldsFresh()
    ensures FreshArgs(SliderFields) && ArgNames(SliderFields) == SliderNames
  {
    SliderNamesListed();
    FreshFromNames(SliderFields, SliderNames);
  }

  lemma SliderNamesListed()
    ensures ArgNames(SliderFields) == SliderNames
  {
  }

  /** The options array of the Google Services tab. */
  const GoogleServicesTabOptions: map<string, string> := map["title" := "Google Services", "slug" := "google-services"]

  /** The Google Services tab is the sixth tab of the constructor. */
  lemma GoogleServicesIsTab(k: nat)
    requires k == 5
    ensures TabSlugs[k] == "google-services" && TabNames[k] == GoogleServicesNames
    ensures Get(GoogleServicesTabOptions, "slug") == "google-services" && Get(GoogleServicesTabOptions, "title") != ""
  {
  }

  /** `setup_google_services_tab`: the "Google Services" tab of the menu. */
  method SetupGoogleServicesTab(menu: WordPressMenu) returns (tab: WordPressMenuTab)
    requires menu.Valid()
    modifies menu`tabs
    ensures fresh(tab) && tab.menu == menu && tab.slug == "google-services" && tab.title == "Google Services"
    ensures menu.Valid() && menu.tabs == AddTabSpec(old(menu.tabs), GoogleServicesTabOptions)
  {
    tab := new WordPressMenuTab(GoogleServicesTabOptions, menu);
  }

  /** `setup_fields_for_google_services_tab`: the fields of that tab, none rejected. */
  method SetupFieldsForGoogleServices(tab: WordPressMenuTab)
    requires tab.menu.Valid() && tab.slug !in tab.menu.fields.m
    requires Names(tab.menu.fields) !! Elements(GoogleServicesNames)
    modifies tab.menu`fields
    ensures tab.menu.Valid()
    ensures AddedTab(old(tab.menu.fields), tab.menu.fields, tab.slug, GoogleServicesNames)
    ensures forall a :: a in GoogleServicesFields ==> Registered(tab.menu.fields, tab.slug, a)
  {
    ghost var f0 := tab.menu.fields;
    assert GoogleServicesFields[..0] == [];
    AddTabField(tab, f0, GoogleServicesFields, 0, 1);
    AddTabField(tab, f0, GoogleServicesFields, 1, 2);
    AddTabField(tab, f0, GoogleServicesFields, 2, 3);
    AddTabField(tab, f0, GoogleServicesFields, 3, 4);
    assert |GoogleServicesFields| == 4;
    GoogleServicesFieldsFresh();
    FieldsRegistered(f0, tab.menu.fields, GoogleServicesFields, GoogleServicesNames, 4, tab.slug);
  }

  /** The names of the GoogleServices fields, in order; they are pairwise different and each argument array is accepted. */
  const GoogleServicesNames: seq<string> := ["google-webmaster", "google-analytics", "recaptcha-site-key", "recaptcha-secret-key"]

  lemma GoogleServicesFieldsFresh()
    ensures FreshArgs(GoogleServicesFields) && ArgNames(GoogleServicesFields) == GoogleServicesNames
  {
    GoogleServicesNamesListed();
    FreshFromNames(GoogleServicesFields, GoogleServicesNames);
  }

  lemma GoogleServicesNamesListed()
    ensures ArgNames(GoogleServicesFields) == GoogleServicesNames
  {
  }

  /** The options array of the HTML Sitemap tab. */
  const HtmlSitemapTabOptions: map<string, string> := map["title" := "HTML Sitemap", "slug" := "html-sitemap"]

  /** The HTML Sitemap tab is the seventh tab of the constructor. */
  lemma HtmlSitemapIsTab(k: nat)
    requires k == 6
    ensures TabSlugs[k] == "html-sitemap" && TabNames[k] == HtmlSitemapNames
    ensures Get(HtmlSitemapTabOptions, "slug") == "html-sitemap" && Get(HtmlSitemapTabOptions, "title") != ""
  {
  }

  /** `setup_html_sitemap_tab`: the "HTML Sitemap" tab of the menu. */
  method SetupHtmlSitemapTab(menu: WordPressMenu) returns (tab: WordPressMenuTab)
    requires menu.Valid()
    modifies menu`tabs
    ensures fresh(tab) && tab.menu == menu && tab.slug == "html-sitemap" && tab.title == "HTML Sitemap"
    ensures menu.Valid() && menu.tabs == AddTabSpec(old(menu.tabs), HtmlSitemapTabOptions)
  {
    tab := new WordPressMenuTab(HtmlSitemapTabOptions, menu);
  }

  /** `setup_fields_for_html_sitemap_tab`: the fields of that tab, none rejected. */
  method SetupFieldsForHtmlSitemap(tab: WordPressMenuTab)
    requires tab.menu.Valid() && tab.slug !in tab.menu.fields.m
    requires Names(tab.menu.fields) !! Elements(HtmlSitemapNames)
    modifies tab.menu`fields
    ensures tab.menu.Valid()
    ensures AddedTab(old(tab.menu.fields), tab.menu.fields, tab.slug, HtmlSitemapNames)
    ensures forall a :: a in HtmlSitemapFields ==> Registered(tab.menu.fields, tab.slug, a)
  {
    ghost var f0 := tab.menu.fields;
    assert HtmlSitemapFields[..0] == [];
    AddTabField(tab, f0, HtmlSitemapFields, 0, 1);
    AddTabField(tab, f0, HtmlSitemapFields, 1, 2);
    assert |HtmlSitemapFields| == 2;
    HtmlSitemapFieldsFresh();
    FieldsRegistered(f0, tab.menu.fields, HtmlSitemapFields, HtmlSitemapNames, 2, tab.slug);
  }

  /** The names of the HtmlSitemap fields, in order; they are pairwise different and each argument array is accepted. */
  const HtmlSitemapNames: seq<string> := ["html-sitemap-enabled", "html-sitemap-pages-to-exclude"]

  lemma HtmlSitemapFieldsFresh()
    ensures FreshArgs(HtmlSitemapFields) && ArgNames(HtmlSitemapFields) == HtmlSitemapNames
  {
    HtmlSitemapNamesListed();
    FreshFromNames(HtmlSitemapFields, HtmlSitemapNames);
  }

  lemma HtmlSitemapNamesListed()
    ensures ArgNames(HtmlSitemapFields) == HtmlSitemapNames
  {
  }

  /** The defaults the general tab's fields get: `favicon` is a text field defaulting to `''`, and each radio defaults to the key listed first. */
  lemma GeneralDefaults(f: Fields)
    requires forall a :: a in GeneralFields ==> Registered(f, "general", a)
    ensures "general" in f.m
    ensures "favicon" in f.m["general"].m && f.m["general"].m["favicon"].kind == Text
    ensures f.m["general"].m["favicon"].defaultValue == ""
    ensures "remove-wordpress-logo" in f.m["general"].m && f.m["general"].m["remove-wordpress-logo"].defaultValue == "1"
    ensures "remove-dashboard-widget" in f.m["general"].m && f.m["general"].m["remove-dashboard-widget"].defaultValue == "0"
  {
    assert Registered(f, "general", GeneralFields[0]);
    assert Registered(f, "general", GeneralFields[1]);
    assert Registered(f, "general", GeneralFields[3]);
  }

  /** The `slider-mode` select defaults to its first option, `horizontal`. */
  lemma SliderModeDefault(f: Fields)
    requires forall a :: a in SliderFields ==> Registered(f, "slider", a)
    ensures "slider" in f.m && "slider-mode" in f.m["slider"].m
    ensures f.m["slider"].m["slider-mode"].kind == Select && f.m["slider"].m["slider-mode"].defaultValue == "horizontal"
  {
    assert Registered(f, "slider", SliderFields[1]);
  }

  /** The tab slugs of the "Admin UI" menu, in the order the constructor adds them. */
  const TabSlugs: seq<string> :=
    ["general", "login-screen", "users-profile", "php-mailer", "slider", "google-services", "html-sitemap"]

  /** The names of those fields, tab by tab. */
  const TabNames: seq<seq<string>> :=
    [GeneralNames, LoginScreenNames, UsersProfileNames, PhpMailerNames, SliderNames, GoogleServicesNames, HtmlSitemapNames]

  /** No name of a tab is registered on an earlier tab. */
  lemma NamesDistinct(k: nat)
    requires k < |TabNames|
    ensures forall i, n :: 0 <= i < k && n in TabNames[i] ==> n !in TabNames[k]
  {
  }

  /** No tab slug is used twice. */
  lemma SlugsDistinct(k: nat)
    requires k < |TabSlugs|
    ensures TabSlugs[k] !in TabSlugs[..k]
  {
  }

  /** The names of the fields of the first `k` tabs of the constructor. */
  ghost function NamesUpTo(k: nat): set<string>
    requires k <= |TabNames|
  {
    if k == 0 then {} else NamesUpTo(k - 1) + Elements(TabNames[k - 1])
  }

  /** A name is among those of the first `k` tabs exactly when one of those tabs lists it. */
  lemma {:induction false} NamesUpToHas(k: nat, n: string)
    requires k <= |TabNames|
    ensures n in NamesUpTo(k) <==> exists i :: 0 <= i < k && n in TabNames[i]
  {
    if k > 0 {
      NamesUpToHas(k - 1, n);
      if n in TabNames[k - 1] {
        assert n in Elements(TabNames[k - 1]);
      }
    }
  }

  /** The field names of each tab, in tab order. */
  ghost function TabKeys(f: Fields): (r: seq<seq<string>>)
    requires Wf(f)
    ensures |r| == |f.keys|
  {
    KeysOf(f.m, f.keys)
  }

  /** The field names of the tabs `slugs` of `m`, in that order. */
  ghost function KeysOf(m: map<string, Tab>, slugs: seq<string>): (r: seq<seq<string>>)
    requires forall s :: s in slugs ==> s in m
    ensures |r| == |slugs|
    ensures forall i :: 0 <= i < |slugs| ==> r[i] == m[slugs[i]].keys
  {
    if slugs == [] then [] else KeysOf(m, slugs[..|slugs| - 1]) + [m[slugs[|slugs| - 1]].keys]
  }

  /** The tabs of `f` in order, each with exactly its names, and no other name registered. */
  ghost predicate Holds(f: Fields, slugs: seq<string>, names: seq<seq<string>>, all: set<string>) {
    Wf(f) && f.keys == slugs && TabKeys(f) == names && Names(f) == all
  }

  /**
   * The fields after the first `k` tabs of the constructor: those tabs in
   * order, each holding exactly its names in order, and no other name
   * registered anywhere.
   */
  ghost predicate Stage(f: Fields, k: nat) {
    k <= |TabNames| && Holds(f, TabSlugs[..k], TabNames[..k], NamesUpTo(k))
  }

  /** The next tab of the constructor, `slug` with the fields `names`, is new and none of its names is taken. */
  lemma StageReady(f: Fields, k: nat, slug: string, names: seq<string>)
    requires Stage(f, k) && k < |TabNames| && slug == TabSlugs[k] && names == TabNames[k]
    ensures slug !in f.m && Names(f) !! Elements(names)
  {
    NamesDistinct(k);
    SlugsDistinct(k);
    assert TabSlugs[k] !in f.keys;
    forall n | n in Names(f) ensures n !in TabNames[k] {
      NamesUpToHas(k, n);
    }
  }

  /** Registering the next tab's fields completes the next stage. */
  lemma StageStep(before: Fields, after: Fields, k: nat)
    requires Stage(before, k) && k < |TabNames|
    requires AddedTab(before, after, TabSlugs[k], TabNames[k])
    ensures Stage(after, k + 1)
  {
    TakeNext(TabSlugs, k);
    TakeNext(TabNames, k);
    TabKeysAdded(before, after, TabSlugs[k], TabNames[k]);
  }

  /** Adding a tab with the fields `names` appends `names` to the field names of the tabs. */
  lemma TabKeysAdded(before: Fields, after: Fields, slug: string, names: seq<string>)
    requires Wf(before) && AddedTab(before, after, slug, names)
    ensures TabKeys(after) == TabKeys(before) + [names]
  {
    var n := |before.keys|;
    forall i | 0 <= i < n + 1 ensures TabKeys(after)[i] == (TabKeys(before) + [names])[i] {
      if i < n {
        assert before.keys[i] in before.m;
      }
    }
  }

  /** The first `k + 1` elements of a sequence are its first `k` and then its `k`-th. */
  lemma TakeNext<T>(s: seq<T>, k: nat)
    requires k < |s|
    ensures s[..k + 1] == s[..k] + [s[k]]
  {
  }

  /** Adding the next tab of the constructor appends its slug to the tab list. */
  lemma TabStep(tabs: OMap<string, string>, options: map<string, string>, k: nat)
    requires OrderedMaps.Valid(tabs) && 0 < k < |TabSlugs| && tabs.keys == TabSlugs[..k]
    requires Get(options, "slug") == TabSlugs[k] && Get(options, "title") != ""
    ensures AddTabSpec(tabs, options).keys == TabSlugs[..k + 1]
  {
    SlugsDistinct(k);
    assert TabSlugs[k] !in tabs.m;
    TakeNext(TabSlugs, k);
  }

  /** One more tab of the constructor, `slug` with its fields `names`: the next stage, and the slug appended to the tab list. */
  lemma StageAdvance(tabs0: OMap<string, string>, tabs: OMap<string, string>, options: map<string, string>,
                     f0: Fields, f: Fields, k: nat, slug: string, names: seq<string>)
    requires 0 < k < |TabNames| && slug == TabSlugs[k] && names == TabNames[k]
    requires Stage(f0, k) && AddedTab(f0, f, slug, names)
    requires OrderedMaps.Valid(tabs0) && tabs0.keys == TabSlugs[..k]
    requires Get(options, "slug") == slug && Get(options, "title") != "" && tabs == AddTabSpec(tabs0, options)
    ensures Stage(f, k + 1) && tabs.keys == TabSlugs[..k + 1]
  {
    TabStep(tabs0, options, k);
    StageStep(f0, f, k);
  }

  /** After the last tab of the constructor, the tab list is all of its slugs. */
  lemma AllTabs(keys: seq<string>, f: Fields, k: nat)
    requires k == |TabSlugs| && keys == TabSlugs[..k] && Stage(f, k)
    ensures keys == TabSlugs && Stage(f, |TabNames|)
  {
  }

  /** The tab `slug` of `f` holds the fields of `args` as `add_field` prepared them, none of type `Blank`. */
  ghost predicate TabReady(f: Fields, slug: string, args: seq<FieldArgs>) {
    slug in f.m && TabHolds(f.m[slug], args) && NoBlankTab(f.m[slug])
  }

  /** A menu whose seven tabs have no `Blank` field has none at all. */
  lemma AssembleAdmin(f: Fields)
    requires Wf(f) && f.keys == TabSlugs
    requires NoBlankTab(TabOf(f, "general")) && NoBlankTab(TabOf(f, "login-screen")) && NoBlankTab(TabOf(f, "users-profile"))
    requires NoBlankTab(TabOf(f, "php-mailer")) && NoBlankTab(TabOf(f, "slider")) && NoBlankTab(TabOf(f, "google-services"))
    requires NoBlankTab(TabOf(f, "html-sitemap"))
    ensures NoBlankFields(f)
  {
    forall t | t in f.m ensures NoBlankTab(f.m[t]) {
      assert t in f.keys;
      assert f.m[t] == TabOf(f, t);
    }
  }

  /** Each tab of the constructor holds its fields as `add_field` prepared them, none of type `Blank`. */
  ghost predicate AllRegistered(f: Fields) {
    && TabReady(f, "general", GeneralFields)
    && TabReady(f, "login-screen", LoginScreenFields)
    && TabReady(f, "users-profile", UsersProfileFields)
    && TabReady(f, "php-mailer", PhpMailerFields)
    && TabReady(f, "slider", SliderFields)
    && TabReady(f, "google-services", GoogleServicesFields)
    && TabReady(f, "html-sitemap", HtmlSitemapFields)
  }

  /** The general and slider fields of the finished menu, with the defaults the constructor gives them. */
  lemma AdminDefaults(f: Fields)
    requires AllRegistered(f)
    ensures "general" in f.m && "slider" in f.m
    ensures var general := f.m["general"].m;
            && "favicon" in general && general["favicon"].kind == Text && general["favicon"].defaultValue == ""
            && "remove-wordpress-logo" in general && general["remove-wordpress-logo"].defaultValue == "1"
            && "remove-dashboard-widget" in general && general["remove-dashboard-widget"].defaultValue == "0"
    ensures var slider := f.m["slider"].m;
            "slider-mode" in slider && slider["slider-mode"].kind == Select && slider["slider-mode"].defaultValue == "horizontal"
  {
    HoldsIffRegistered(f, "general", GeneralFields);
    HoldsIffRegistered(f, "slider", SliderFields);
    GeneralDefaults(f);
    SliderModeDefault(f);
  }

  /** No field of `tab` has type `Blank`. */
  ghost predicate NoBlankTab(tab: Tab) {
    forall n :: n in tab.m ==> !tab.m[n].kind.Blank?
  }

  /** No field of `f` has type `Blank`: every field has a validator. */
  ghost predicate NoBlankFields(f: Fields) {
    forall t :: t in f.m ==> NoBlankTab(f.m[t])
  }

  /** A tab holding exactly the fields of `args`, none typed `''`, has no `Blank` field. */
  lemma TabNotBlank(tab: Tab, args: seq<FieldArgs>, names: seq<string>)
    requires OrderedMaps.Valid(tab) && tab.keys == names && ArgNames(args) == names && TabHolds(tab, args)
    requires Typed(args)
    ensures NoBlankTab(tab)
  {
    forall n | n in tab.m ensures !tab.m[n].kind.Blank? {
      var i :| 0 <= i < |names| && names[i] == n;
      assert ArgNames(args)[i] == args[i].name.GetOr("");
      ArgNotBlank(tab, args, i);
    }
  }

  /** The field registered for an argument array that gives a type other than `''` is not `Blank`. */
  lemma ArgNotBlank(tab: Tab, args: seq<FieldArgs>, i: nat)
    requires i < |args| && TabHolds(tab, args) && args[i].kind != Some("")
    ensures Prepare(args[i]).Some? && args[i].name.value in tab.m && !tab.m[args[i].name.value].kind.Blank?
  {
    var a := args[i];
    assert a in args;
    if a.kind.Some? {
      assert TypeName(Prepare(a).value.kind) == a.kind.value;
    }
  }

  /** No argument array of `args` gives the type `''`. */
  predicate Typed(args: seq<FieldArgs>) {
    forall i :: 0 <= i < |args| ==> args[i].kind != Some("")
  }

  lemma GeneralTyped()
    ensures Typed(GeneralFields)
  {
  }

  lemma LoginScreenTyped()
    ensures Typed(LoginScreenFields)
  {
  }

  lemma UsersProfileTyped()
    ensures Typed(UsersProfileFields)
  {
  }

  lemma PhpMailerTyped()
    ensures Typed(PhpMailerFields)
  {
  }

  lemma SliderTyped()
    ensures Typed(SliderFields)
  {
  }

  lemma GoogleServicesTyped()
    ensures Typed(GoogleServicesFields)
  {
  }

  lemma HtmlSitemapTyped()
    ensures Typed(HtmlSitemapFields)
  {
  }

  /** The general tab, once registered, has no `Blank` field. */
  lemma GeneralNotBlank(tab: Tab)
    requires OrderedMaps.Valid(tab) && tab.keys == GeneralNames && TabHolds(tab, GeneralFields)
    ensures NoBlankTab(tab)
  {
    GeneralNamesListed();
    GeneralTyped();
    TabNotBlank(tab, GeneralFields, GeneralNames);
  }

  /** The login-screen tab, once registered, has no `Blank` field. */
  lemma LoginScreenNotBlank(tab: Tab)
    requires OrderedMaps.Valid(tab) && tab.keys == LoginScreenNames && TabHolds(tab, LoginScreenFields)
    ensures NoBlankTab(tab)
  {
    LoginScreenNamesListed();
    LoginScreenTyped();
    TabNotBlank(tab, LoginScreenFields, LoginScreenNames);
  }

  /** The users-profile tab, once registered, has no `Blank` field. */
  lemma UsersProfileNotBlank(tab: Tab)
    requires OrderedMaps.Valid(tab) && tab.keys == UsersProfileNames && TabHolds(tab, UsersProfileFields)
    ensures NoBlankTab(tab)
  {
    UsersProfileNamesListed();
    UsersProfileTyped();
    TabNotBlank(tab, UsersProfileFields, UsersProfileNames);
  }

  /** The php-mailer tab, once registered, has no `Blank` field. */
  lemma PhpMailerNotBlank(tab: Tab)
    requires OrderedMaps.Valid(tab) && tab.keys == PhpMailerNames && TabHolds(tab, PhpMailerFields)
    ensures NoBlankTab(tab)
  {
    PhpMailerNamesListed();
    PhpMailerTyped();
    TabNotBlank(tab, PhpMailerFields, PhpMailerNames);
  }

  /** The slider tab, once registered, has no `Blank` field. */
  lemma SliderNotBlank(tab: Tab)
    requires OrderedMaps.Valid(tab) && tab.keys == SliderNames && TabHolds(tab, SliderFields)
    ensures NoBlankTab(tab)
  {
    SliderNamesListed();
    SliderTyped();
    TabNotBlank(tab, SliderFields, SliderNames);
  }

  /** The google-services tab, once registered, has no `Blank` field. */
  lemma GoogleServicesNotBlank(tab: Tab)
    requires OrderedMaps.Valid(tab) && tab.keys == GoogleServicesNames && TabHolds(tab, GoogleServicesFields)
    ensures NoBlankTab(tab)
  {
    GoogleServicesNamesListed();
    GoogleServicesTyped();
    TabNotBlank(tab, GoogleServicesFields, GoogleServicesNames);
  }

  /** The html-sitemap tab, once registered, has no `Blank` field. */
  lemma HtmlSitemapNotBlank(tab: Tab)
    requires OrderedMaps.Valid(tab) && tab.keys == HtmlSitemapNames && TabHolds(tab, HtmlSitemapFields)
    ensures NoBlankTab(tab)
  {
    HtmlSitemapNamesListed();
    HtmlSitemapTyped();
    TabNotBlank(tab, HtmlSitemapFields, HtmlSitemapNames);
  }

  /**
   * Saving and reloading a menu registered as the constructor registers
   * the "Admin UI" one, with a `favicon` posted: the save completes and the
   * favicon's default becomes the posted value as `validate_text` cleans it.
   */
  lemma FaviconSavedThenLoaded(f: Fields, s: Blob, tabKeys: seq<string>, posted: map<string, string>, host: Host)
    requires Wf(f) && NoBlankFields(f) && "general" in f.m && TabHolds(f.m["general"], GeneralFields)
    requires "favicon" in posted
    ensures SaveFold(s, Entries(f), tabKeys, f, posted, host).Some?
    ensures var r := SaveFold(s, Entries(f), tabKeys, f, posted, host).value;
            "favicon" in f.m["general"].m &&
            LoadDefaults(f, r).m["general"].m["favicon"].defaultValue == Sanitize(Text, posted["favicon"], host)
  {
    SaveRewritesEveryField(s, tabKeys, f, posted, host);
    HoldsIffRegistered(f, "general", GeneralFields);
    GeneralDefaults(f);
    var r := SaveFold(s, Entries(f), tabKeys, f, posted, host).value;
    SaveThenLoad(s, tabKeys, f, posted, host, r, "general", "favicon");
  }

  /** `setup_submenu`: the "Options" sub-menu under the parent menu. */
  method SetupSubmenu(parent: WordPressMenu) returns (sub: WordPressMenu)
    ensures fresh(sub) && sub.Valid()
    ensures sub.settingsId == "options" && sub.parentId == Some(parent.settingsId)
    ensures sub.tabs == InitialTabs() && sub.fields == Empty() && sub.settings == map[]
  {
    sub := new WordPressMenu.SubMenu(map["title" := "Options", "slug" := "options",
                                         "desc" := "Settings for custom WordPress SubMenu"], parent);
  }

  /** `setup_tabs_for_sub_menu`: one checkbox named `field` on the sub-menu's general tab. */
  method SetupTabsForSubMenu(sub: WordPressMenu)
    requires sub.Valid() && sub.fields == Empty()
    modifies sub`fields
    ensures sub.Valid()
    ensures sub.fields.keys == ["general"] && "general" in sub.fields.m && sub.fields.m["general"].keys == ["field"]
    ensures Registered(sub.fields, "general", SubMenuField)
    ensures sub.fields.m["general"].m["field"].kind == Checkbox && sub.fields.m["general"].m["field"].defaultValue == ""
  {
    assert Names(sub.fields) == {};
    sub.AddField(SubMenuField);
  }

  /** The general tab, the parent menu's initial one, is the first tab of the constructor. */
  lemma GeneralIsTab(f: Fields, tabs: OMap<string, string>)
    requires AddedTab(Empty(), f, "general", GeneralNames) && tabs == InitialTabs()
    ensures Stage(f, 1) && tabs.keys == TabSlugs[..1]
  {
    assert Stage(Empty(), 0);
    StageStep(Empty(), f, 0);
  }

  /** The constructor's first step: the general tab's fields on the new menu. */
  method GeneralStage(parent: WordPressMenu)
    requires parent.Valid() && parent.fields == Empty() && parent.tabs == InitialTabs()
    modifies parent`fields
    ensures parent.Valid() && Stage(parent.fields, 1) && parent.tabs.keys == TabSlugs[..1]
    ensures TabReady(parent.fields, "general", GeneralFields)
  {
    SetupFieldsForParentMenu(parent);
    GeneralIsTab(parent.fields, parent.tabs);
    HoldsIffRegistered(parent.fields, "general", GeneralFields);
    GeneralNotBlank(parent.fields.m["general"]);
  }

  /** The constructor's calls for the login-screen tab: the tab, then its fields. */
  method LoginScreenStage(parent: WordPressMenu, ghost k: nat)
    requires k == 1
    requires parent.Valid() && Stage(parent.fields, k) && parent.tabs.keys == TabSlugs[..k]
    modifies parent`tabs, parent`fields
    ensures parent.Valid() && Stage(parent.fields, k + 1) && parent.tabs.keys == TabSlugs[..k + 1]
    ensures forall t :: t in old(parent.fields.m) ==> t in parent.fields.m && parent.fields.m[t] == old(parent.fields.m[t])
    ensures TabReady(parent.fields, "login-screen", LoginScreenFields)
  {
    ghost var tabs0, fields0 := parent.tabs, parent.fields;
    LoginScreenIsTab(k);
    StageReady(fields0, k, "login-screen", LoginScreenNames);
    var loginScreenTab := SetupLoginScreenTab(parent);
    SetupFieldsForLoginScreen(loginScreenTab);
    StageAdvance(tabs0, parent.tabs, LoginScreenTabOptions, fields0, parent.fields, k, "login-screen", LoginScreenNames);
    HoldsIffRegistered(parent.fields, "login-screen", LoginScreenFields);
    LoginScreenNotBlank(parent.fields.m["login-screen"]);
  }

  /** The constructor's calls for the users-profile tab: the tab, then its fields. */
  method UsersProfileStage(parent: WordPressMenu, ghost k: nat)
    requires k == 2
    requires parent.Valid() && Stage(parent.fields, k) && parent.tabs.keys == TabSlugs[..k]
    modifies parent`tabs, parent`fields
    ensures parent.Valid() && Stage(parent.fields, k + 1) && parent.tabs.keys == TabSlugs[..k + 1]
    ensures forall t :: t in old(parent.fields.m) ==> t in parent.fields.m && parent.fields.m[t] == old(parent.fields.m[t])
    ensures TabReady(parent.fields, "users-profile", UsersProfileFields)
  {
    ghost var tabs0, fields0 := parent.tabs, parent.fields;
    UsersProfileIsTab(k);
    StageReady(fields0, k, "users-profile", UsersProfileNames);
    var userProfileTab := SetupUsersProfileTab(parent);
    SetupFieldsForUsersProfile(userProfileTab);
    StageAdvance(tabs0, parent.tabs, UsersProfileTabOptions, fields0, parent.fields, k, "users-profile", UsersProfileNames);
    HoldsIffRegistered(parent.fields, "users-profile", UsersProfileFields);
    UsersProfileNotBlank(parent.fields.m["users-profile"]);
  }

  /** The constructor's calls for the php-mailer tab: the tab, then its fields. */
  method PhpMailerStage(parent: WordPressMenu, ghost k: nat)
    requires k == 3
    requires parent.Valid() && Stage(parent.fields, k) && parent.tabs.keys == TabSlugs[..k]
    modifies parent`tabs, parent`fields
    ensures parent.Valid() && Stage(parent.fields, k + 1) && parent.tabs.keys == TabSlugs[..k + 1]
    ensures forall t :: t in old(parent.fields.m) ==> t in parent.fields.m && parent.fields.m[t] == old(parent.fields.m[t])
    ensures TabReady(parent.fields, "php-mailer", PhpMailerFields)
  {
    ghost var tabs0, fields0 := parent.tabs, parent.fields;
    PhpMailerIsTab(k);
    StageReady(fields0, k, "php-mailer", PhpMailerNames);
    var phpMailerTab := SetupPhpMailerTab(parent);
    SetupFieldsForPhpMailer(phpMailerTab);
    StageAdvance(tabs0, parent.tabs, PhpMailerTabOptions, fields0, parent.fields, k, "php-mailer", PhpMailerNames);
    HoldsIffRegistered(parent.fields, "php-mailer", PhpMailerFields);
    PhpMailerNotBlank(parent.fields.m["php-mailer"]);
  }

  /** The constructor's calls for the slider tab: the tab, then its fields. */
  method SliderStage(parent: WordPressMenu, ghost k: nat)
    requires k == 4
    requires parent.Valid() && Stage(parent.fields, k) && parent.tabs.keys == TabSlugs[..k]
    modifies parent`tabs, parent`fields
    ensures parent.Valid() && Stage(parent.fields, k + 1) && parent.tabs.keys == TabSlugs[..k + 1]
    ensures forall t :: t in old(parent.fields.m) ==> t in parent.fields.m && parent.fields.m[t] == old(parent.fields.m[t])
    ensures TabReady(parent.fields, "slider", SliderFields)
  {
    ghost var tabs0, fields0 := parent.tabs, parent.fields;
    SliderIsTab(k);
    StageReady(fields0, k, "slider", SliderNames);
    var sliderTab := SetupSliderTab(parent);
    SetupFieldsForSlider(sliderTab);
    StageAdvance(tabs0, parent.tabs, SliderTabOptions, fields0, parent.fields, k, "slider", SliderNames);
    HoldsIffRegistered(parent.fields, "slider", SliderFields);
    SliderNotBlank(parent.fields.m["slider"]);
  }

  /** The constructor's calls for the google-services tab: the tab, then its fields. */
  method GoogleServicesStage(parent: WordPressMenu, ghost k: nat)
    requires k == 5
    requires parent.Valid() && Stage(parent.fields, k) && parent.tabs.keys == TabSlugs[..k]
    modifies parent`tabs, parent`fields
    ensures parent.Valid() && Stage(parent.fields, k + 1) && parent.tabs.keys == TabSlugs[..k + 1]
    ensures forall t :: t in old(parent.fields.m) ==> t in parent.fields.m && parent.fields.m[t] == old(parent.fields.m[t])
    ensures TabReady(parent.fields, "google-services", GoogleServicesFields)
  {
    ghost var tabs0, fields0 := parent.tabs, parent.fields;
    GoogleServicesIsTab(k);
    StageReady(fields0, k, "google-services", GoogleServicesNames);
    var googleServicesTab := SetupGoogleServicesTab(parent);
    SetupFieldsForGoogleServices(googleServicesTab);
    StageAdvance(tabs0, parent.tabs, GoogleServicesTabOptions, fields0, parent.fields, k, "google-services", GoogleServicesNames);
    HoldsIffRegistered(parent.fields, "google-services", GoogleServicesFields);
    GoogleServicesNotBlank(parent.fields.m["google-services"]);
  }

  /** The constructor's calls for the html-sitemap tab: the tab, then its fields. */
  method HtmlSitemapStage(parent: WordPressMenu, ghost k: nat)
    requires k == 6
    requires parent.Valid() && Stage(parent.fields, k) && parent.tabs.keys == TabSlugs[..k]
    modifies parent`tabs, parent`fields
    ensures parent.Valid() && Stage(parent.fields, k + 1) && parent.tabs.keys == TabSlugs[..k + 1]
    ensures forall t :: t in old(parent.fields.m) ==> t in parent.fields.m && parent.fields.m[t] == old(parent.fields.m[t])
    ensures TabReady(parent.fields, "html-sitemap", HtmlSitemapFields)
  {
    ghost var tabs0, fields0 := parent.tabs, parent.fields;
    HtmlSitemapIsTab(k);
    StageReady(fields0, k, "html-sitemap", HtmlSitemapNames);
    var htmlSitemapTab := SetupHtmlSitemapTab(parent);
    SetupFieldsForHtmlSitemap(htmlSitemapTab);
    StageAdvance(tabs0, parent.tabs, HtmlSitemapTabOptions, fields0, parent.fields, k, "html-sitemap", HtmlSitemapNames);
    HoldsIffRegistered(parent.fields, "html-sitemap", HtmlSitemapFields);
    HtmlSitemapNotBlank(parent.fields.m["html-sitemap"]);
  }

  /** The constructor's calls for the "Options" sub-menu: the sub-menu, then its checkbox. */
  method SubMenuStage(parent: WordPressMenu) returns (sub: WordPressMenu)
    ensures fresh(sub) && sub.Valid()
    ensures sub.settingsId == "options" && sub.parentId == Some(parent.settingsId)
    ensures sub.fields.keys == ["general"] && "general" in sub.fields.m && sub.fields.m["general"].keys == ["field"]
    ensures Registered(sub.fields, "general", SubMenuField)
  {
    sub := SetupSubmenu(parent);
    SetupTabsForSubMenu(sub);
  }

  /**
   * The parent-menu part of the constructor: the "Admin UI" menu with its
   * general fields, then the six further tabs each with its fields.
   */
  method SetupParentTabs() returns (parent: WordPressMenu)
    ensures fresh(parent) && parent.Valid()
    ensures parent.settingsId == "admin-ui" && parent.tabs.keys == TabSlugs
    ensures Stage(parent.fields, |TabNames|) && AllRegistered(parent.fields) && NoBlankFields(parent.fields)
  {
    parent := SetupParentMenu();
    GeneralStage(parent);
    ghost var general := parent.fields.m["general"];
    ghost var k := 1;
    UserStages(parent, k);
    ghost var middle := parent.fields;
    k := k + 3;
    ContentStages(parent, k);
    k := k + 3;
    AllTabs(parent.tabs.keys, parent.fields, k);
    assert parent.fields.m["general"] == general;
    assert parent.fields.m["login-screen"] == middle.m["login-screen"];
    assert parent.fields.m["users-profile"] == middle.m["users-profile"];
    assert parent.fields.m["php-mailer"] == middle.m["php-mailer"];
    assert parent.fields.keys == TabSlugs[..|TabNames|] == TabSlugs;
    AssembleAdmin(parent.fields);
  }

  /** The constructor's login-screen, users-profile and php-mailer tabs, in that order. */
  method UserStages(parent: WordPressMenu, ghost k: nat)
    requires k == 1
    requires parent.Valid() && Stage(parent.fields, k) && parent.tabs.keys == TabSlugs[..k]
    modifies parent`tabs, parent`fields
    ensures parent.Valid() && Stage(parent.fields, k + 3) && parent.tabs.keys == TabSlugs[..k + 3]
    ensures forall t :: t in old(parent.fields.m) ==> t in parent.fields.m && parent.fields.m[t] == old(parent.fields.m[t])
    ensures TabReady(parent.fields, "login-screen", LoginScreenFields)
    ensures TabReady(parent.fields, "users-profile", UsersProfileFields)
    ensures TabReady(parent.fields, "php-mailer", PhpMailerFields)
  {
    LoginScreenStage(parent, k);
    ghost var loginScreen := parent.fields.m["login-screen"];
    UsersProfileStage(parent, k + 1);
    ghost var usersProfile := parent.fields.m["users-profile"];
    PhpMailerStage(parent, k + 2);
    assert parent.fields.m["login-screen"] == loginScreen && parent.fields.m["users-profile"] == usersProfile;
  }

  /** The constructor's slider, google-services and html-sitemap tabs, in that order. */
  method ContentStages(parent: WordPressMenu, ghost k: nat)
    requires k == 4
    requires parent.Valid() && Stage(parent.fields, k) && parent.tabs.keys == TabSlugs[..k]
    modifies parent`tabs, parent`fields
    ensures parent.Valid() && Stage(parent.fields, k + 3) && parent.tabs.keys == TabSlugs[..k + 3]
    ensures forall t :: t in old(parent.fields.m) ==> t in parent.fields.m && parent.fields.m[t] == old(parent.fields.m[t])
    ensures TabReady(parent.fields, "slider", SliderFields)
    ensures TabReady(parent.fields, "google-services", GoogleServicesFields)
    ensures TabReady(parent.fields, "html-sitemap", HtmlSitemapFields)
  {
    SliderStage(parent, k);
    ghost var slider := parent.fields.m["slider"];
    GoogleServicesStage(parent, k + 1);
    ghost var googleServices := parent.fields.m["google-services"];
    HtmlSitemapStage(parent, k + 2);
    assert parent.fields.m["slider"] == slider && parent.fields.m["google-services"] == googleServices;
  }

  /**
   * The constructor of the admin class: the "Admin UI" menu with its general
   * fields, the six further tabs each with its fields, and the "Options"
   * sub-menu with its checkbox.  Every `add_tab` and `add_field` call takes
   * effect, every field has a validator, and the fields keep the defaults
   * their argument arrays give.
   */
  method SetupAdmin() returns (parent: WordPressMenu, sub: WordPressMenu)
    ensures fresh(parent) && fresh(sub) && parent.Valid() && sub.Valid()
    ensures parent.settingsId == "admin-ui" && parent.tabs.keys == TabSlugs
    ensures Stage(parent.fields, |TabNames|) && AllRegistered(parent.fields) && NoBlankFields(parent.fields)
    ensures "general" in parent.fields.m && "slider" in parent.fields.m
    ensures var general := parent.fields.m["general"].m;
            && "favicon" in general && general["favicon"].kind == Text && general["favicon"].defaultValue == ""
            && "remove-wordpress-logo" in general && general["remove-wordpress-logo"].defaultValue == "1"
            && "remove-dashboard-widget" in general && general["remove-dashboard-widget"].defaultValue == "0"
    ensures var slider := parent.fields.m["slider"].m;
            "slider-mode" in slider && slider["slider-mode"].kind == Select && slider["slider-mode"].defaultValue == "horizontal"
    ensures sub.settingsId == "options" && sub.parentId == Some("admin-ui")
    ensures sub.fields.keys == ["general"] && "general" in sub.fields.m && sub.fields.m["general"].keys == ["field"]
    ensures Registered(sub.fields, "general", SubMenuField)
  {
    parent := SetupParentTabs();
    AdminDefaults(parent.fields);
    sub := SubMenuStage(parent);
  }
}
