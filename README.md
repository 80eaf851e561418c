# Wordpress Admin Customizer: a verified model of the settings core

Wordpress Admin Customizer is a WordPress plugin with two halves. The
first adds an "Admin UI" settings page with tabs of fields (favicon,
login-screen logo and footer, extra user-profile fields, SMTP, slider,
Google services, HTML sitemap). The page saves them under the option named
after its slug, `admin-ui`. The second is the login-screen and public
classes. They act on the option `admin-customization`: they redirect
non-administrators after login, change the login logo link and title, print
a contact footer, add contact methods to user profiles, reorder the admin menu and switch comments off. Nothing in the
plugin writes `admin-customization`, so what the settings page saves does
not reach these helpers. The model keeps the two apart in the same way.

This Dafny project models the plugin's core and proves what it promises:

- `Registry` (registry.dfy) is the state of the abstract `WordPressSettings`
  class as values: tabs and fields as PHP insertion-ordered arrays
  (`OrderedMaps.OMap`), the flat settings array, and the specification
  functions for `add_field`, `add_tab`, `init_settings`, `get_option`, the
  `validate_*` family, `save_settings` and `render_fields`, with the lemmas
  that state their properties (unique field names, "nothing else changes",
  every field rewritten by its validator, and so on).
- `Menus` (menu.dfy) holds the classes `WordPressMenu` (which carries the
  `WordPressSettings` fields) and `WordPressMenuTab`. Their methods update
  the fields in place with the source's loops; the contract of each gives
  its results and the fields it changes as `Registry` functions of the old
  state, including the request that dies when a save meets a field with no
  validator. `WordPressSubMenu` is the named constructor `SubMenu`.
- `AdminSetup` (admin_setup.dfy) is `sanitize_text` and the registration
  scenario the admin class's constructor runs: the parent menu, its seven
  tabs and their fields, and the "Options" sub-menu. It proves that no
  `add_field` call of the scenario is rejected, that the tabs come out in
  the order `general`, `login-screen`, `users-profile`, `php-mailer`,
  `slider`, `google-services`, `html-sitemap`, that every field is stored
  as `add_field` prepares its argument array and has a validator, which
  defaults are computed, and what a save of the finished menu reloads.
- `LoginScreen` (login_screen.dfy) is the option-driven decision logic of the
  login-screen class, as functions of the option array read once in its
  constructor.
- `Labels` (labels.dfy) is the bootstrap class's version fallback and its
  label derivation for the custom post type and taxonomy.
- `PhpStrings` (php_strings.dfy) holds the PHP string built-ins these rely on
  (`strtolower`, `ucwords`, `ucfirst`, `trim`, `str_replace` and
  `preg_replace('/\s+/', ' ', ...)`), restricted to ASCII case mapping.
- `OrderedMaps` and `Wrappers` hold the ordered array and `Option`.

Host services are parameters: the option table is a `Store` map, `$_POST` and
`$_GET` are maps, and `stripslashes`, `wp_kses_post`, `wp_kses` and
`esc_html` are uninterpreted functions carried in a `Host` record or passed
in. PHP `null` is `None`.

## Model

Source paths are relative to the plugin's root.

| member | source | states |
|---|---|---|
| OrderedMaps.Put | admin/inc/class-as-wp-admin-customization-menu.php:431-434 | assigning into a PHP array maps the key to the value, keeps the position of an existing key and appends a new key last |
| Registry.ParseType | admin/inc/class-as-wp-admin-customization-menu.php:395-403 | a type string is accepted exactly when it names one of the six allowed field types (or is `''`), and then it parses to that type |
| Registry.Prepare | admin/inc/class-as-wp-admin-customization-menu.php:401-430 | the type guard and the empty-name check reject exactly the bad arguments; an omitted type becomes text; with options and no default the default is the first option key in insertion order; otherwise the given default, or `''` |
| Registry.AddFieldSpec | admin/inc/class-as-wp-admin-customization-menu.php:394-435 | a rejected field or a name any tab already holds changes nothing; an accepted field goes last in its tab (created last when absent), adds exactly its name, leaves every other tab untouched, and field names stay unique across tabs |
| Registry.InsertKeepsWf | admin/inc/class-as-wp-admin-customization-menu.php:431-434 | storing a field under a name no tab holds keeps both levels well-formed and names unique across tabs |
| Registry.InsertAddsName | admin/inc/class-as-wp-admin-customization-menu.php:431-434 | storing a field adds exactly its name to the registered names |
| Registry.AddTabSpec | admin/inc/class-as-wp-admin-customization-menu.php:441-450 | an empty slug or title changes nothing; otherwise the slug maps to the title, a new slug goes last, an existing one keeps its place and gets the new title; no tab is removed |
| Registry.InitialTabs | admin/inc/class-as-wp-admin-customization-menu.php:213-214 | every registry starts with the single tab `general => General` |
| Registry.LoadTab | admin/inc/class-as-wp-admin-customization-menu.php:243-250 | loading one tab keeps its fields and their order and loads each field by name |
| Registry.LoadDefaults | admin/inc/class-as-wp-admin-customization-menu.php:240-252 | a field's default is replaced exactly when the stored settings hold a non-null value under its name; every other field keeps its declared default; tabs, fields and their order are unchanged |
| Registry.LoadKeepsWf | admin/inc/class-as-wp-admin-customization-menu.php:240-252 | loading stored values keeps the fields well-formed and the registered names the same |
| Registry.LoadDefaultsIdempotent | admin/inc/class-as-wp-admin-customization-menu.php:240-252 | loading the same stored settings twice is loading them once |
| Registry.LoadNothing | admin/inc/class-as-wp-admin-customization-menu.php:240-252 | loading an empty settings array changes no field |
| Registry.FindDefault | admin/inc/class-as-wp-admin-customization-menu.php:284-292 | the default found is the default of a field of that name under a listed tab, and none is found only when no listed tab holds that name |
| Registry.FindRegisteredDefault | admin/inc/class-as-wp-admin-customization-menu.php:284-292 | with names unique across tabs, the default `get_option` falls back to is the registered field's own default |
| Registry.OptionSettings | admin/inc/class-as-wp-admin-customization-menu.php:279-298 | `get_option` changes only the asked key: an unset key takes the registered default, an empty string is replaced by a non-null empty value, and the returned value is that key's new value |
| Registry.StoreOverOption | admin/inc/class-as-wp-admin-customization-menu.php:305-311 | once settings are loaded, the `get_option` a validator runs first is overwritten by the save and leaves no other trace |
| Registry.Validated | admin/inc/class-as-wp-admin-customization-menu.php:305-387 | a checkbox is `'1'` exactly when `'1'` was posted and `''` otherwise; the other types return the sanitised posted value when posted and the current `get_option` value when not |
| Registry.CheckboxForgetsCurrent | admin/inc/class-as-wp-admin-customization-menu.php:381-387 | a checkbox's validated value ignores the current value, so a stored `'1'` that is not posted becomes `''` |
| Registry.TabEntries | admin/inc/class-as-wp-admin-customization-menu.php:263-267 | the entries visited for a tab are its fields' names and types in the tab's order |
| Registry.EntriesOfMembers | admin/inc/class-as-wp-admin-customization-menu.php:262-268 | the nested loops of `save_settings` visit exactly the fields registered under the listed tabs |
| Registry.EntriesOfDistinct | admin/inc/class-as-wp-admin-customization-menu.php:262-268 | with unique names, no field name is visited twice |
| Registry.SaveFoldCompletes | admin/inc/class-as-wp-admin-customization-menu.php:262-268 | the save loop completes exactly when no visited field is of the type without a validator |
| Registry.SaveFoldKeeps | admin/inc/class-as-wp-admin-customization-menu.php:262-268 | a completed save leaves every key that is not a visited field name as it was |
| Registry.SaveFoldValues | admin/inc/class-as-wp-admin-customization-menu.php:262-268 | a save over distinct names completes and sets each visited name to its validator's result |
| Registry.SaveRewritesEveryField | admin/inc/class-as-wp-admin-customization-menu.php:257-271 | a save completes iff no field lacks a validator; it then rewrites every registered field with its type's validator and keeps every key that belongs to no field |
| Registry.SaveThenLoad | admin/inc/class-as-wp-admin-customization-menu.php:240-271 | after a completed save, reloading gives each field as default: for a checkbox `'1'` exactly when `'1'` was posted and `''` otherwise; for another type the cleaned posted value, or when not posted the value `get_option` had before the save, or the declared default when that was null |
| Registry.RenderTabLists | admin/inc/class-as-wp-admin-customization-menu.php:457-466 | rendering a tab lists one control per field in the tab's order; a field without a renderer stops it after exactly the controls before it |
| Menus.Prepopulated | admin/inc/class-as-wp-admin-customization-menu.php:57-67 | an empty title becomes the slug with its first letter upper-cased, then an empty page title becomes the title; a non-empty slug leaves both non-empty; no other option changes |
| Menus.PrepopulateIdempotent | admin/inc/class-as-wp-admin-customization-menu.php:57-67 | prepopulating twice is prepopulating once |
| Menus.WordPressMenu.constructor | admin/inc/class-as-wp-admin-customization-menu.php:34-51 | the options are merged over the defaults, the settings id is the slug, prepopulation happens only for a non-empty slug, and the registry starts with only the general tab, no fields and no settings |
| Menus.WordPressMenu.SubMenu | admin/inc/class-as-wp-admin-customization-menu.php:175-180 | a sub-menu is a menu built from its options whose parent id is the parent's settings id |
| Menus.WordPressMenu.Construct | admin/inc/class-as-wp-admin-customization-menu.php:35-46 | the menu options are the merged options, prepopulated exactly when the slug is non-empty |
| Menus.WordPressMenu.Prepopulate | admin/inc/class-as-wp-admin-customization-menu.php:57-67 | the new menu options are the prepopulated old ones |
| Menus.WordPressMenu.AddPage | admin/inc/class-as-wp-admin-customization-menu.php:73-96 | a sub-menu page under the parent exactly when a non-empty parent id is set, a top-level page otherwise; `create_menu_page` is the callback exactly when no `function` option is set; titles, capability and slug come from the options; a top-level page carries the `icon` option, and the `position` option exactly when one is set |
| Menus.WordPressMenu.SaveIfSubmit | admin/inc/class-as-wp-admin-customization-menu.php:162-166 | without `<settings id>_save` in the request (or with an empty settings id) nothing changes and the request goes on; with it, the posted data is recorded, the fields are those the save loads first, and the request goes on exactly when the save completes, the settings then being the saved array and the store holding it under the settings id; a save that dies leaves the store as it was |
| Menus.WordPressMenu.CreateMenuPage | admin/inc/class-as-wp-admin-customization-menu.php:102-130 | without a submit the store is unchanged, the settings are re-read from it, every field takes its stored value as default and the page shows `$_GET['tab']` (else `general`) rendered; when the submitted save dies the store is unchanged and no page is shown; when it completes the store and settings hold the saved array, the fields are reloaded from it, and that tab is shown |
| Menus.WordPressMenu.ShowPage | admin/inc/class-as-wp-admin-customization-menu.php:104-108 | the settings become the stored array, the fields take the stored values as defaults, and the page shows `$_GET['tab']` (else `general`) as `render_fields` renders it |
| Menus.WordPressMenu.InitSettings | admin/inc/class-as-wp-admin-customization-menu.php:240-252 | the settings become the stored array and the fields become the loaded fields of the specification |
| Menus.LoadTabValues | admin/inc/class-as-wp-admin-customization-menu.php:244-250 | the inner loop of `init_settings` computes the loaded tab |
| Menus.WordPressMenu.GetOption | admin/inc/class-as-wp-admin-customization-menu.php:279-298 | settings are loaded first when empty, then the result is the asked key's value in the settings `get_option` leaves |
| Menus.WordPressMenu.FillDefault | admin/inc/class-as-wp-admin-customization-menu.php:284-292 | the tab loop of `get_option` stores the found default under the key, or changes nothing when none is found |
| Menus.WordPressMenu.ValidateText | admin/inc/class-as-wp-admin-customization-menu.php:305-311 | the result is the text validator's value; the `get_option` it runs first changes only what `get_option` changes |
| Menus.WordPressMenu.ValidateTextarea | admin/inc/class-as-wp-admin-customization-menu.php:317-331 | the result is the textarea validator's value, with the same `get_option` side effect |
| Menus.WordPressMenu.ValidateWpEditor | admin/inc/class-as-wp-admin-customization-menu.php:337-351 | the result is the editor validator's value, with the same `get_option` side effect |
| Menus.WordPressMenu.ValidateSelect | admin/inc/class-as-wp-admin-customization-menu.php:357-363 | the result is the select validator's value, with the same `get_option` side effect |
| Menus.WordPressMenu.ValidateRadio | admin/inc/class-as-wp-admin-customization-menu.php:369-375 | the result is the radio validator's value, with the same `get_option` side effect |
| Menus.WordPressMenu.ValidateCheckbox | admin/inc/class-as-wp-admin-customization-menu.php:381-387 | the result is `'1'` exactly when `'1'` was posted under the key, and `''` otherwise |
| Menus.WordPressMenu.Validate | admin/inc/class-as-wp-admin-customization-menu.php:266 | the `'validate_' . type` dispatch returns the validated value for the field's type; a checkbox touches no state |
| Menus.WordPressMenu.SaveSettings | admin/inc/class-as-wp-admin-customization-menu.php:257-271 | the posted data is recorded, settings are loaded when empty, the new settings are the specification's save, and the store gets them exactly when the save completes |
| Menus.WordPressMenu.SaveTabs | admin/inc/class-as-wp-admin-customization-menu.php:262-268 | the outer save loop completes exactly when the specification's save does, and then leaves its result |
| Menus.WordPressMenu.SaveTab | admin/inc/class-as-wp-admin-customization-menu.php:263-267 | the inner save loop extends the specification's save by the tab's fields, or stops on a field whose type has no validator |
| Menus.WordPressMenu.SaveField | admin/inc/class-as-wp-admin-customization-menu.php:266 | one loop step sets the field's name to its validated value and changes no other key |
| Menus.WordPressMenu.BlankStopsSave | admin/inc/class-as-wp-admin-customization-menu.php:266 | one field without a validator anywhere makes the whole save stop |
| Menus.WordPressMenu.AddField | admin/inc/class-as-wp-admin-customization-menu.php:394-435 | the fields become those of the specification's `add_field` |
| Menus.WordPressMenu.IsFieldNameTaken | admin/inc/class-as-wp-admin-customization-menu.php:420-425 | the loop over the tabs reports a name exactly when some tab registers it |
| Menus.WordPressMenu.StoreField | admin/inc/class-as-wp-admin-customization-menu.php:431-434 | the field is stored last in its tab, the tab created when absent, and the registry stays well-formed |
| Menus.WordPressMenu.AddTab | admin/inc/class-as-wp-admin-customization-menu.php:441-450 | the tabs become those of the specification's `add_tab` |
| Menus.WordPressMenu.RenderFields | admin/inc/class-as-wp-admin-customization-menu.php:457-466 | "no settings" for a tab without fields, otherwise the tab's rendering |
| Menus.RenderTabFields | admin/inc/class-as-wp-admin-customization-menu.php:462-465 | the dispatch loop of `render_fields` produces the tab's rendering |
| Menus.WordPressMenuTab.constructor | admin/inc/class-as-wp-admin-customization-menu.php:187-192 | a tab records its slug, title and menu and adds itself to the menu's tabs |
| Menus.WordPressMenuTab.AddField | admin/inc/class-as-wp-admin-customization-menu.php:197-199 | a tab's `add_field` is the menu's `add_field` under the tab's slug |
| AdminSetup.SanitizeTextShape | admin/class-as-wp-admin-customization-admin.php:129-131 | every `_` becomes a space, letters change only in case, words start upper-case, every other character is kept as it is, and no `_` is left |
| AdminSetup.SanitizeCharAt | admin/class-as-wp-admin-customization-admin.php:129-131 | at one position: `_` becomes a space, a word start changes only in case and is not lower-case, any other character stays as it is |
| AdminSetup.SanitizeTextIdempotent | admin/class-as-wp-admin-customization-admin.php:129-131 | sanitising twice is sanitising once |
| AdminSetup.SetupParentMenu | admin/class-as-wp-admin-customization-admin.php:138-151 | the parent menu is a fresh top-level menu with settings id `admin-ui`, only the general tab and no fields |
| AdminSetup.SetupFieldsForParentMenu | admin/class-as-wp-admin-customization-admin.php:158-254 | the general tab receives its seven fields in order, each accepted and registered with its prepared descriptor |
| AdminSetup.GeneralFieldsFresh | admin/class-as-wp-admin-customization-admin.php:158-254 | the general fields are all accepted, with distinct names, favicon to disable-updates in order |
| AdminSetup.AddAllFresh | admin/class-as-wp-admin-customization-admin.php:158-254 | a sequence of `add_field` calls with acceptable, distinct, new names adds a new tab holding exactly those names in order and registers every field |
| AdminSetup.GeneralDefaults | admin/class-as-wp-admin-customization-admin.php:179-217 | `favicon` is a text field with default `''`, `remove-wordpress-logo` defaults to `1` and `remove-dashboard-widget` to `0`, their first option keys |
| AdminSetup.SetupLoginScreenTab | admin/class-as-wp-admin-customization-admin.php:261-274 | the `login-screen` tab is added to the parent menu |
| AdminSetup.SetupFieldsForLoginScreen | admin/class-as-wp-admin-customization-admin.php:281-334 | the login-screen tab receives its six fields in order, all registered |
| AdminSetup.LoginScreenFieldsFresh | admin/class-as-wp-admin-customization-admin.php:281-334 | the login-screen fields are accepted, with distinct names in the listed order |
| AdminSetup.SetupUsersProfileTab | admin/class-as-wp-admin-customization-admin.php:341-354 | the `users-profile` tab is added to the parent menu |
| AdminSetup.SetupFieldsForUsersProfile | admin/class-as-wp-admin-customization-admin.php:361-511 | the users-profile tab receives its four fields in order, all registered |
| AdminSetup.UsersProfileFieldsFresh | admin/class-as-wp-admin-customization-admin.php:361-511 | the users-profile fields are accepted, with distinct names in the listed order |
| AdminSetup.SetupPhpMailerTab | admin/class-as-wp-admin-customization-admin.php:518-531 | the `php-mailer` tab is added to the parent menu |
| AdminSetup.SetupFieldsForPhpMailer | admin/class-as-wp-admin-customization-admin.php:540-613 | the php-mailer tab receives its eight fields in order, all registered |
| AdminSetup.PhpMailerFieldsFresh | admin/class-as-wp-admin-customization-admin.php:540-613 | the php-mailer fields are accepted, with distinct names in the listed order |
| AdminSetup.SetupSliderTab | admin/class-as-wp-admin-customization-admin.php:620-633 | the `slider` tab is added to the parent menu |
| AdminSetup.SetupFieldsForSlider | admin/class-as-wp-admin-customization-admin.php:641-710 | the slider tab receives its seven fields in order, all registered |
| AdminSetup.SliderFieldsFresh | admin/class-as-wp-admin-customization-admin.php:641-710 | the slider fields are accepted, with distinct names in the listed order |
| AdminSetup.SliderModeDefault | admin/class-as-wp-admin-customization-admin.php:665-670 | `slider-mode` is a select whose default is `horizontal`, its first option key |
| AdminSetup.SetupGoogleServicesTab | admin/class-as-wp-admin-customization-admin.php:717-730 | the `google-services` tab is added to the parent menu |
| AdminSetup.SetupFieldsForGoogleServices | admin/class-as-wp-admin-customization-admin.php:738-772 | the google-services tab receives its four fields in order, all registered |
| AdminSetup.GoogleServicesFieldsFresh | admin/class-as-wp-admin-customization-admin.php:738-772 | the google-services fields are accepted, with distinct names in the listed order |
| AdminSetup.SetupHtmlSitemapTab | admin/class-as-wp-admin-customization-admin.php:779-792 | the `html-sitemap` tab is added to the parent menu |
| AdminSetup.SetupFieldsForHtmlSitemap | admin/class-as-wp-admin-customization-admin.php:799-824 | the html-sitemap tab receives its two fields in order, all registered |
| AdminSetup.HtmlSitemapFieldsFresh | admin/class-as-wp-admin-customization-admin.php:799-824 | the html-sitemap fields are accepted, with distinct names in the listed order |
| AdminSetup.NamesDistinct | admin/class-as-wp-admin-customization-admin.php:158-824 | no field name of a tab is used by an earlier tab, so no `add_field` call of the scenario is rejected |
| AdminSetup.SlugsDistinct | admin/class-as-wp-admin-customization-admin.php:261-792 | every tab slug is new when its tab is added |
| AdminSetup.StageAdvance | admin/class-as-wp-admin-customization-admin.php:59-75 | adding the next tab and its fields keeps every earlier tab and name and extends the tab order by one |
| AdminSetup.SetupSubmenu | admin/class-as-wp-admin-customization-admin.php:832-844 | the "Options" sub-menu has settings id `options` and records the parent's settings id |
| AdminSetup.SetupTabsForSubMenu | admin/class-as-wp-admin-customization-admin.php:851-861 | the sub-menu's general tab holds exactly one checkbox field named `field`, with default `''` |
| AdminSetup.SetupAdmin | admin/class-as-wp-admin-customization-admin.php:50-80 | the constructor leaves the parent menu with the tabs in the order general, login-screen, users-profile, php-mailer, slider, google-services, html-sitemap, each holding its own fields stored as `add_field` prepares their argument arrays, no field without a validator, `favicon` a text field defaulting to `''`, `remove-wordpress-logo` defaulting to `1`, `remove-dashboard-widget` to `0` and `slider-mode` a select defaulting to `horizontal`; and the sub-menu under `admin-ui` with its single checkbox |
| AdminSetup.SetupParentTabs | admin/class-as-wp-admin-customization-admin.php:56-75 | the parent menu and its seven tabs come out in order, each holding its fields as prepared, none without a validator |
| AdminSetup.UserStages | admin/class-as-wp-admin-customization-admin.php:59-66 | the login-screen, users-profile and php-mailer tabs are added with their fields as prepared, and every earlier tab stays as it was |
| AdminSetup.ContentStages | admin/class-as-wp-admin-customization-admin.php:68-75 | the slider, google-services and html-sitemap tabs are added with their fields as prepared, and every earlier tab stays as it was |
| AdminSetup.HoldsIffRegistered | admin/inc/class-as-wp-admin-customization-menu.php:401-434 | a tab holds an argument list's prepared fields exactly when every argument of the list is registered under it |
| AdminSetup.AssembleAdmin | admin/class-as-wp-admin-customization-admin.php:56-75 | a menu whose only tabs are the seven, none with a field lacking a validator, has no such field at all |
| AdminSetup.AdminDefaults | admin/class-as-wp-admin-customization-admin.php:179-217 | in the registered menu `favicon` is a text field defaulting to `''`, `remove-wordpress-logo` defaults to `1`, `remove-dashboard-widget` to `0`, and `slider-mode` is a select defaulting to `horizontal` |
| AdminSetup.TabNotBlank | admin/inc/class-as-wp-admin-customization-menu.php:395-403 | a tab holding exactly the prepared fields of argument arrays none of which gives the type `''` has no field without a validator |
| AdminSetup.ArgNotBlank | admin/inc/class-as-wp-admin-customization-menu.php:395-403 | an argument array that gives a type other than `''` is registered with a type that has a validator |
| AdminSetup.GeneralNotBlank | admin/class-as-wp-admin-customization-admin.php:158-254 | the general tab, holding its prepared fields, has none without a validator |
| AdminSetup.LoginScreenNotBlank | admin/class-as-wp-admin-customization-admin.php:281-334 | the login-screen tab, holding its prepared fields, has none without a validator |
| AdminSetup.UsersProfileNotBlank | admin/class-as-wp-admin-customization-admin.php:361-511 | the users-profile tab, holding its prepared fields, has none without a validator |
| AdminSetup.PhpMailerNotBlank | admin/class-as-wp-admin-customization-admin.php:540-613 | the php-mailer tab, holding its prepared fields, has none without a validator |
| AdminSetup.SliderNotBlank | admin/class-as-wp-admin-customization-admin.php:641-710 | the slider tab, holding its prepared fields, has none without a validator |
| AdminSetup.GoogleServicesNotBlank | admin/class-as-wp-admin-customization-admin.php:738-772 | the google-services tab, holding its prepared fields, has none without a validator |
| AdminSetup.HtmlSitemapNotBlank | admin/class-as-wp-admin-customization-admin.php:799-824 | the html-sitemap tab, holding its prepared fields, has none without a validator |
| AdminSetup.FaviconSavedThenLoaded | admin/class-as-wp-admin-customization-admin.php:179-185 | saving the registered "Admin UI" menu with a `favicon` posted completes, and reloading makes the favicon's default the posted value as `validate_text` cleans it |
| LoginScreen.ActiveIffSetAndNonEmpty | admin/inc/class-as-wp-admin-customization-admin-login-screen.php:284-313 | whichever of `isset`, `!empty` and `== TRUE` a feature gate uses, it is active exactly when its option is set to something other than `''` and `'0'` |
| LoginScreen.LoginRedirect | admin/inc/class-as-wp-admin-customization-admin-login-screen.php:175-185 | the admin URL exactly when the user's roles are an array containing `administrator`, the site URL otherwise |
| LoginScreen.LoginScreenLogoUrl | admin/inc/class-as-wp-admin-customization-admin-login-screen.php:129-136 | the escaped `logo-url` option, or the escaped blog URL when it is empty |
| LoginScreen.LoginScreenLogoTitle | admin/inc/class-as-wp-admin-customization-admin-login-screen.php:142-149 | the `logo-title` option, or the blog name when it is empty |
| LoginScreen.PhoneHref | admin/inc/class-as-wp-admin-customization-admin-login-screen.php:212 | the `tel:` form holds no dash or space and only characters of the number, and every character that is neither a separator nor trimmable as often as the number does |
| LoginScreen.SeparatorIgnored | admin/inc/class-as-wp-admin-customization-admin-login-screen.php:212 | a dash or a space anywhere in the number leaves its `tel:` form unchanged |
| LoginScreen.PlainNumberHref | admin/inc/class-as-wp-admin-customization-admin-login-screen.php:212 | a number with no separator and no trimmable character is its own `tel:` form |
| LoginScreen.BlocksHref | admin/inc/class-as-wp-admin-customization-admin-login-screen.php:212 | two blocks with no separator and no trimmable character, joined by a dash or a space, link to the blocks run together |
| LoginScreen.ZeroNumberHref | admin/inc/class-as-wp-admin-customization-admin-login-screen.php:208-212 | any number shaped `0000-000-000` links to `0000000000` |
| LoginScreen.LoginFormFooter | admin/inc/class-as-wp-admin-customization-admin-login-screen.php:204-229 | phone, email and website are the options, falling back to `0000-000-000`, the site's `email` option and the blog URL when empty; the phone link is the phone's `tel:` form, `0000000000` for the fallback |
| LoginScreen.ChangeHowdyText | admin/inc/class-as-wp-admin-customization-admin-login-screen.php:246-258 | null with an empty replacement; the text unchanged outside the admin area or another text domain; otherwise every `Howdy` replaced |
| LoginScreen.AddContactNoFieldsInUserProfile | admin/inc/class-as-wp-admin-customization-admin-login-screen.php:318-323 | adds `contact_no => Contact No.` and changes no other entry |
| LoginScreen.AddFacebookFieldsInUserProfile | admin/inc/class-as-wp-admin-customization-admin-login-screen.php:328-333 | adds `facebook => Facebook` and changes no other entry |
| LoginScreen.AddTwitterFieldsInUserProfile | admin/inc/class-as-wp-admin-customization-admin-login-screen.php:338-343 | adds `twitter => Twitter` and changes no other entry |
| LoginScreen.AddLinkedinFieldsInUserProfile | admin/inc/class-as-wp-admin-customization-admin-login-screen.php:348-353 | adds `linkedin => LinkedIn` and changes no other entry |
| LoginScreen.UserContactMethods | admin/inc/class-as-wp-admin-customization-admin-login-screen.php:284-313 | the profile shows the host's contact methods plus exactly the fields whose toggles are active, with their labels; every host entry no active toggle writes keeps its value, and the host's entries come first in their order |
| LoginScreen.GrowsChain | admin/inc/class-as-wp-admin-customization-admin-login-screen.php:284-313 | four filters each adding its own distinct key, when enabled, add exactly the enabled keys with their labels, keep every entry no enabled filter writes, and keep the existing order |
| LoginScreen.ChainMembers | admin/inc/class-as-wp-admin-customization-admin-login-screen.php:284-313 | after four filters the keys are the old ones plus exactly the enabled filters' keys |
| LoginScreen.ChainKeeps | admin/inc/class-as-wp-admin-customization-admin-login-screen.php:284-313 | an entry no enabled filter writes keeps its value through all four |
| LoginScreen.ChainLabels | admin/inc/class-as-wp-admin-customization-admin-login-screen.php:284-313 | each enabled filter's label survives the later filters |
| LoginScreen.ReorderAdminMenu | admin/inc/class-as-wp-admin-customization-admin-login-screen.php:373-389 | whatever it is given, the twelve distinct entries Pages, Posts, Media, separator, Dashboard, Appearance, Comments, separator, Plugins, Tools, Users, Settings |
| LoginScreen.ReorderIgnoresArgument | admin/inc/class-as-wp-admin-customization-admin-login-screen.php:373-389 | the filter's result does not depend on the order it is given |
| LoginScreen.CommentHelpersAreConstant | admin/inc/class-as-wp-admin-customization-admin-login-screen.php:426-459 | the selected post types are always `['all']`, comments and pings are always closed, and existing comments always hidden |
| LoginScreen.DisableCommentsHooks | admin/inc/class-as-wp-admin-customization-admin-login-screen.php:395-422 | an inactive toggle registers nothing; an active one always takes the "all" branch and registers its nine hooks in order |
| Labels.PluginVersion | includes/class-as-wp-admin-customization.php:71-75 | the defined version constant, else `1.0.0` |
| Labels.Pluralize | includes/class-as-wp-admin-customization.php:393-400 | a final lower-case `y` becomes `ies`; anything else, a final `Y` or `s` included, gets an `s` |
| Labels.GetSanitizedLabels | includes/class-as-wp-admin-customization.php:387-410 | the name is the input with whitespace runs collapsed, in title case (word starts not lower-case, the rest not upper-case, no two spaces in a row); single equals name; plural is the pluralised single |
| Labels.PostTypeLabels | includes/class-as-wp-admin-customization.php:283-289 | `anu rag` gives `Anu Rag`, `Anu Rag`, `Anu Rags` |
| Labels.TaxonomyLabels | includes/class-as-wp-admin-customization.php:314-326 | `sin gh` gives `Sin Gh`, `Sin Gh`, `Sin Ghs` |
| PhpStrings.StrToLowerShape | includes/class-as-wp-admin-customization.php:388 | `strtolower` changes letters only in case and keeps whitespace where it was |
| PhpStrings.UcWordsShape | includes/class-as-wp-admin-customization.php:388 | `ucwords` changes letters only in case, keeps the word structure, leaves no word starting lower-case, leaves every character inside a word as it is and, on lower-case input, upper-cases nothing inside a word |
| PhpStrings.UcFirstOfUcWords | includes/class-as-wp-admin-customization.php:388-391 | `ucfirst` of a `ucwords` result changes nothing |
| PhpStrings.CollapseWhitespace | includes/class-as-wp-admin-customization.php:388 | collapsing never lengthens the text and a leading whitespace run becomes one space rather than being removed |
| PhpStrings.CollapseNonSpace | includes/class-as-wp-admin-customization.php:388 | collapsing whitespace keeps every other character in order |
| PhpStrings.CollapseIsCollapsed | includes/class-as-wp-admin-customization.php:388 | after collapsing, whitespace appears only as single spaces |
| PhpStrings.CollapseLast | includes/class-as-wp-admin-customization.php:388 | a trailing whitespace run becomes one space rather than being removed |
| PhpStrings.CollapseCollapsed | includes/class-as-wp-admin-customization.php:388 | collapsing already collapsed text changes nothing |
| PhpStrings.CollapseInteriorRun | includes/class-as-wp-admin-customization.php:388 | a whitespace run between two words becomes exactly one space, each side collapsed on its own |
| PhpStrings.CollapseConcat | includes/class-as-wp-admin-customization.php:388 | text that ends in a non-space collapses apart from whatever follows it |
| PhpStrings.DropSpacesRun | includes/class-as-wp-admin-customization.php:388 | a run made only of whitespace is dropped whole before the next word |
| PhpStrings.DropSpacesPrefix | includes/class-as-wp-admin-customization.php:388 | dropping leading whitespace stops inside text that ends in a non-space |
| PhpStrings.RemoveChars | admin/inc/class-as-wp-admin-customization-admin-login-screen.php:212 | `str_replace` of the separators by `''` leaves none of them and never lengthens the text |
| PhpStrings.RemoveCharsFrom | admin/inc/class-as-wp-admin-customization-admin-login-screen.php:212 | removing characters adds none |
| PhpStrings.RemoveCharsConcat | admin/inc/class-as-wp-admin-customization-admin-login-screen.php:212 | removing characters distributes over concatenation |
| PhpStrings.RemoveCharsCounts | admin/inc/class-as-wp-admin-customization-admin-login-screen.php:212 | every character that is not removed stays, as often as the input has it |
| PhpStrings.RemoveCharsKeeps | admin/inc/class-as-wp-admin-customization-admin-login-screen.php:212 | a character that is not removed is kept |
| PhpStrings.TrimKeepsCounts | admin/inc/class-as-wp-admin-customization-admin-login-screen.php:212 | `trim` keeps every character it cannot strip, as often as the input has it |
| PhpStrings.Trim | admin/inc/class-as-wp-admin-customization-admin-login-screen.php:212 | `trim` removes exactly the leading and trailing trimmable characters; the result neither starts nor ends with one |
| PhpStrings.ReplaceAllFirst | admin/inc/class-as-wp-admin-customization-admin-login-screen.php:253-254 | `str_replace` keeps the text before the first occurrence, puts the replacement in its place and carries on after the occurrence |
| PhpStrings.FirstOccurrence | admin/inc/class-as-wp-admin-customization-admin-login-screen.php:253 | when `strpos` finds the pattern there is a first occurrence: the pattern starts there and at no earlier position, so `ReplaceAllFirst` applies |
| PhpStrings.ReplaceAllAbsent | admin/inc/class-as-wp-admin-customization-admin-login-screen.php:252-255 | replacing an absent `Howdy` is the identity, so the `strpos` test changes no result |

## Left out

- HTML output: the `render_*` bodies, the page markup of `create_menu_page` and `render_tabs`, the login CSS and JavaScript, the login header, and the sitemap shortcode. `render_fields` is modelled as the sequence of (type, name, default) controls it dispatches.
- Hook registration: `add_action`, `add_filter`, the loader, `add_menu_page` and `add_submenu_page` calls, the `enqueue_*` functions, i18n and the activator. `add_page` returns the page it would register. `DisableCommentsHooks` lists the hooks as data.
- The gates that only register hooks or call host APIs (`always_check_remember_me`, `remove_wp_logo_from_admin_screen`, `remove_dashboard_widgets`, `disable_updates`, `add_favicon_on_site`, `enable_php_mailer`, `enable_reordering_of_admin_menu_items`) are reduced to their activation condition, `LoginScreen.Active`.
- `LoginScreen.Options` is its own parameter, not the settings saved by the page. The login-screen class reads `get_site_option('admin-customization')` (admin/inc/class-as-wp-admin-customization-admin-login-screen.php:63), but the settings page saves under its slug `admin-ui` (admin/inc/class-as-wp-admin-customization-menu.php:43 and :270). No code of the plugin writes `admin-customization`, so no lemma links a save of the page to these helpers.
- `LoginScreen.ChangeHowdyText` is modelled as written, but the plugin never registers it: the `gettext` filter that would call it is commented out (includes/class-as-wp-admin-customization.php:225), so no "Howdy" greeting is replaced in practice.
- `login_screen_bg` and `login_screen_logo`: random choice and attachment lookups, host-only.
- `use_phpmailer` and `remove_core_updates`: they configure host objects.
- The remaining comment helpers (`disable_comments_post_types_support`, `disable_comments_admin_menu`, `disable_comments_admin_menu_redirect`, `disable_comments_dashboard`, `disable_comments_admin_bar`, `admin_bar_render`): only host calls.
- public/class-as-wp-admin-customization-public.php and the post type and taxonomy classes: host queries and registrations with no logic of their own.
- `(array) get_option(...)` of an absent option is a one-element array holding `false` in PHP; the model reads it as an empty array.
- `sanitize_title` is not modelled: the scenario uses the literal slugs it produces (`admin-ui`, `login-screen`, `options`, `field`, ...), and `Labels.GetSanitizedLabels` leaves out the `slug` entry.
- `stripslashes`, `wp_kses_post`, `wp_kses` and `esc_html` are uninterpreted functions.
- PHP loose comparisons are approximated on strings: `1 == $posted` is `posted == "1"`, `$x == TRUE` is `x` not `''` and not `'0'`, and the option keys `TRUE` and `FALSE` of the scenario's arrays are the strings `"1"` and `"0"`.
- Integer options (`position`, textarea `rows` and `cols`) and the non-string `null` arguments are strings or absent keys.
- Field descriptors keep name, type, default and options; title, description and placeholder only reach the rendering.
- In PHP the sub-menu's parent id is assigned after the parent constructor has registered the page hooks; the model fixes it at construction, which is the value those hooks see when they run.
- Two menus with the same slug sharing one stored option are not modelled: each menu is an object with its own settings id.
- The scenario's menus and tabs are PHP locals of the admin constructor; `AdminSetup.SetupAdmin` returns them instead.
- An explicitly empty type string passes the type guard of `add_field` and is stored as a type with no validator or renderer (`Registry.FieldType.Blank`); saving or rendering such a field stops with a fatal error in PHP. The model gives an incomplete save (`SaveFold` is `None`), after which `create_menu_page` shows no page (`Menus.Page.Died`), and an aborted rendering.
- `trigger_error` in `add_field` (admin/inc/class-as-wp-admin-customization-menu.php:422) is a host notice; the model keeps only its effect, that the duplicate field is not added.
- `add_tab` with an existing slug overwrites its title but keeps its position, as PHP arrays do.
- PhpStrings.CollapseWhitespace: its own contract states only length and first character; what the collapse means (other characters kept in order, no two spaces, a leading, trailing or interior run each becoming one space, idempotent) is stated by `CollapseNonSpace`, `CollapseIsCollapsed`, `CollapseLast`, `CollapseInteriorRun` and `CollapseCollapsed`.
- PhpStrings.RemoveChars: its own contract states only that no removed character is left and that the text does not grow; what it keeps is stated by `RemoveCharsCounts` (every other character as often as before), and the order by `RemoveCharsConcat`, `RemoveCharsKeeps`, `RemoveCharsNone` and `RemoveSeparator` (removing distributes over concatenation, a kept character stays, a removed one goes), which together fix the result.
- LoginScreen.PhoneHref: its contract keeps the counts of the characters that matter but not their order; the order is given by `SeparatorIgnored`, `PlainNumberHref` and `BlocksHref`.
- PhpStrings: case mapping covers ASCII letters only, as PHP 8.2's locale-independent `strtolower`, `ucwords` and `ucfirst` do.
