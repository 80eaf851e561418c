/**
 * The decision logic of the login-screen class
 * (admin/inc/class-as-wp-admin-customization-admin-login-screen.php).  Every
 * helper reads the plugin's option array, fetched once in the constructor and
 * never updated, so each is a function of that array and of the values the
 * host supplies (URLs, the blog name, whether the request is an admin page).
 * That array is the option `admin-customization`, which the settings page of
 * `Menus` does not write (it saves under `admin-ui`), so the two are separate
 * here.
 */
module LoginScreen {
  import opened Wrappers
  import opened OrderedMaps
  import opened PhpStrings

  /** The option array `get_site_option('admin-customization')`; a key it lacks reads as PHP null. */
  type Options = map<string, string>

  /** `$this->option_name[$key]` */
  function Read(opts: Options, key: string): Option<string> {
    if key in opts then Some(opts[key]) else None
  }

  /** PHP `empty()` of a string or null: null, `''` and `'0'` are empty. */
  predicate IsEmpty(v: Option<string>) {
    v.None? || v.value == "" || v.value == "0"
  }

  /** PHP `$s == TRUE` for a string: its conversion to boolean. */
  predicate LooselyTrue(s: string) {
    s != "" && s != "0"
  }

  /** The options each feature gate tests before it registers its hooks. */
  datatype Toggle =
    | Favicon | UsersContactNo | UsersFacebookLink | UsersTwitterLink | UsersLinkedinLink
    | ReorderAdminMenuItems | DisableComments | DisableUpdates | SmtpEnabled
    | CheckRememberMeAlways | RemoveWordpressLogo | RemoveDashboardWidget

  function Key(t: Toggle): string {
    match t
    case Favicon => "favicon"
    case UsersContactNo => "users-contact-no"
    case UsersFacebookLink => "users-facebook-link"
    case UsersTwitterLink => "users-twitter-link"
    case UsersLinkedinLink => "users-linkedin-link"
    case ReorderAdminMenuItems => "reorder-admin-menu-items"
    case DisableComments => "disable-comments"
    case DisableUpdates => "disable-updates"
    case SmtpEnabled => "smtp-enabled"
    case CheckRememberMeAlways => "check-remember-me-always"
    case RemoveWordpressLogo => "remove-wordpress-logo"
    case RemoveDashboardWidget => "remove-dashboard-widget"
  }

  /** The gate is written with an `isset(...)` test. */
  predicate TestsIsset(t: Toggle) {
    !(t.CheckRememberMeAlways? || t.RemoveWordpressLogo? || t.RemoveDashboardWidget?)
  }

  /** The gate is written with an additional `... == TRUE` test. */
  predicate ComparesToTrue(t: Toggle) {
    t.DisableUpdates? || t.SmtpEnabled? || t.CheckRememberMeAlways?
    || t.RemoveWordpressLogo? || t.RemoveDashboardWidget?
  }

  /** The condition of the gate, as each is written in the source. */
  predicate Active(opts: Options, t: Toggle) {
    var v := Read(opts, Key(t));
    && (TestsIsset(t) ==> v.Some?)
    && !IsEmpty(v)
    && (ComparesToTrue(t) ==> v.Some? && LooselyTrue(v.value))
  }

  /**
   * Whatever combination of `isset`, `!empty` and `== TRUE` a gate uses, on a
   * string option it is active exactly when the key is set to something other
   * than `''` and `'0'`: the extra `== TRUE` test never changes the outcome.
   */
  lemma ActiveIffSetAndNonEmpty(opts: Options, t: Toggle)
    ensures Active(opts, t) <==> Key(t) in opts && opts[Key(t)] != "" && opts[Key(t)] != "0"
  {
  }

  /** Where `loginRedirect` finds `$user->roles`: unset, an array, or some other value. */
  datatype Roles = Unset | RoleList(roles: seq<string>) | NotAnArray

  /** The `login_redirect` filter: administrators go to the admin area, everyone else to the site. */
  function LoginRedirect(redirectTo: string, request: string, roles: Roles, adminUrl: string, siteUrl: string): (r: string)
    ensures roles.RoleList? && "administrator" in roles.roles ==> r == adminUrl
    ensures !(roles.RoleList? && "administrator" in roles.roles) ==> r == siteUrl
  {
    if roles.RoleList? then
      if "administrator" in roles.roles then adminUrl else siteUrl
    else siteUrl
  }

  /** The `login_headerurl` filter: the `logo-url` option, or the blog URL when it is empty, HTML-escaped. */
  function LoginScreenLogoUrl(opts: Options, blogUrl: string, escHtml: string -> string): (r: string)
    ensures IsEmpty(Read(opts, "logo-url")) ==> r == escHtml(blogUrl)
    ensures !IsEmpty(Read(opts, "logo-url")) ==> r == escHtml(opts["logo-url"])
  {
    var logoUrl := Read(opts, "logo-url");
    escHtml(if IsEmpty(logoUrl) then blogUrl else logoUrl.value)
  }

  /** The `login_headertitle` filter: the `logo-title` option, or the blog name when it is empty. */
  function LoginScreenLogoTitle(opts: Options, blogName: string): (r: string)
    ensures IsEmpty(Read(opts, "logo-title")) ==> r == blogName
    ensures !IsEmpty(Read(opts, "logo-title")) ==> r == opts["logo-title"]
  {
    var logoTitle := Read(opts, "logo-title");
    if IsEmpty(logoTitle) then blogName else logoTitle.value
  }

  /** The number used when no contact number is configured. */
  const DefaultContactNo: string := "0000-000-000"

  /** `tel:` form of a phone number: dashes and spaces removed, then trimmed. */
  function PhoneHref(phone: string): (href: string)
    ensures forall i :: 0 <= i < |href| ==> href[i] != '-' && href[i] != ' ' && href[i] in phone
    ensures forall c :: c != '-' && c != ' ' && !IsTrimmable(c) ==> multiset(href)[c] == multiset(phone)[c]
  {
    RemoveCharsFrom(phone, {'-', ' '});
    RemoveCharsCounts(phone, {'-', ' '});
    TrimKeepsCounts(RemoveChars(phone, {'-', ' '}));
    Trim(RemoveChars(phone, {'-', ' '}))
  }

  /** A dash or a space anywhere in the number does not change its `tel:` form. */
  lemma SeparatorIgnored(a: string, x: char, b: string)
    requires x == '-' || x == ' '
    ensures PhoneHref(a + [x] + b) == PhoneHref(a + b)
  {
    var cs := {'-', ' '};
    RemoveCharsConcat(a + [x], b, cs);
    RemoveCharsConcat(a, [x], cs);
    RemoveSeparator(x, cs);
    RemoveCharsConcat(a, b, cs);
    assert RemoveChars(a, cs) + [] == RemoveChars(a, cs);
  }

  /** No separator and no character `trim` strips. */
  predicate PlainDigits(s: string) {
    forall i :: 0 <= i < |s| ==> s[i] != '-' && s[i] != ' ' && !IsTrimmable(s[i])
  }

  /** Two blocks joined by a dash or a space link to the blocks run together. */
  lemma BlocksHref(a: string, x: char, b: string)
    requires PlainDigits(a) && PlainDigits(b) && (x == '-' || x == ' ')
    ensures PhoneHref(a + [x] + b) == a + b
  {
    SeparatorIgnored(a, x, b);
    PlainConcat(a, b);
    PlainNumberHref(a + b);
  }

  /** Plain blocks run together are plain. */
  lemma PlainConcat(a: string, b: string)
    requires PlainDigits(a) && PlainDigits(b)
    ensures PlainDigits(a + b)
  {
    forall i | 0 <= i < |a + b| ensures (a + b)[i] != '-' && (a + b)[i] != ' ' && !IsTrimmable((a + b)[i]) {
      if i >= |a| {
        assert (a + b)[i] == b[i - |a|];
      }
    }
  }

  /** A number with no separator and no trimmable character is its own `tel:` form. */
  lemma PlainNumberHref(phone: string)
    requires PlainDigits(phone)
    ensures PhoneHref(phone) == phone
  {
    RemoveCharsNone(phone, {'-', ' '});
    if phone != [] {
      TrimUntrimmable(phone);
    }
  }

  /**
   * Dropping the two separators of a number shaped `dddd-ddd-ddd` (digits
   * all `0`) leaves the three digit blocks joined.
   */
  lemma ZeroBlocksHref(phone: string, cs: set<char>)
    requires |phone| == 12 && phone[4] in cs && phone[8] in cs && '0' !in cs
    requires forall i :: 0 <= i < 12 && i != 4 && i != 8 ==> phone[i] == '0'
    ensures RemoveChars(phone, cs) == phone[..4] + phone[5..8] + phone[9..]
  {
    var a, b, d := phone[..4], phone[5..8], phone[9..];
    assert phone == a + [phone[4]] + b + [phone[8]] + d;
    RemoveSeparators(a, phone[4], b, phone[8], d, cs);
  }

  /** Removing two separator characters from between three blocks that hold none joins the blocks. */
  lemma RemoveSeparators(a: string, x: char, b: string, y: char, d: string, cs: set<char>)
    requires x in cs && y in cs
    requires forall i :: 0 <= i < |a| ==> a[i] !in cs
    requires forall i :: 0 <= i < |b| ==> b[i] !in cs
    requires forall i :: 0 <= i < |d| ==> d[i] !in cs
    ensures RemoveChars(a + [x] + b + [y] + d, cs) == a + b + d
  {
    var ax := a + [x];
    var axb := ax + b;
    var axby := axb + [y];
    RemoveCharsNone(a, cs);
    RemoveCharsNone(b, cs);
    RemoveCharsNone(d, cs);
    RemoveSeparator(x, cs);
    RemoveSeparator(y, cs);
    RemoveCharsConcat(a, [x], cs);
    assert RemoveChars(ax, cs) == a;
    RemoveCharsConcat(ax, b, cs);
    assert RemoveChars(axb, cs) == a + b;
    RemoveCharsConcat(axb, [y], cs);
    assert RemoveChars(axby, cs) == a + b;
    RemoveCharsConcat(axby, d, cs);
  }

  /** A lone separator character is removed entirely. */
  lemma RemoveSeparator(x: char, cs: set<char>)
    requires x in cs
    ensures RemoveChars([x], cs) == []
  {
    assert [x][1..] == [];
  }

  /** Ten `0` characters spell the default number's digits. */
  lemma TenZeros(s: string)
    requires |s| == 10 && forall i :: 0 <= i < 10 ==> s[i] == '0'
    ensures s == "0000000000"
  {
  }

  /** Any number shaped `0000-000-000` links to `tel:0000000000`. */
  lemma ZeroNumberHref(phone: string)
    requires |phone| == 12 && phone[4] == '-' && phone[8] == '-'
    requires forall i :: 0 <= i < 12 && i != 4 && i != 8 ==> phone[i] == '0'
    ensures PhoneHref(phone) == "0000000000"
  {
    ZeroBlocksHref(phone, {'-', ' '});
    var digits := phone[..4] + phone[5..8] + phone[9..];
    TenZeros(digits);
    TrimUntrimmable(digits);
  }

  /** The default number links to `tel:0000000000`. */
  lemma DefaultPhoneHref(phone: string)
    requires phone == DefaultContactNo
    ensures PhoneHref(phone) == "0000000000"
  {
    ZeroNumberHref(phone);
  }

  /** The contact line the login footer prints. */
  datatype FooterContact = FooterContact(phone: string, phoneHref: string, email: string, website: string)

  /**
   * `login_form_footer`: the configured phone, email and website, each
   * falling back when empty (to `0000-000-000`, the stored `email` option
   * and the blog URL), and the phone's `tel:` form.
   */
  function LoginFormFooter(opts: Options, siteEmail: string, blogUrl: string): (r: FooterContact)
    ensures IsEmpty(Read(opts, "contact-no")) ==> r.phone == DefaultContactNo && r.phoneHref == "0000000000"
    ensures !IsEmpty(Read(opts, "contact-no")) ==> r.phone == opts["contact-no"]
    ensures r.phoneHref == PhoneHref(r.phone)
    ensures r.email == if IsEmpty(Read(opts, "email")) then siteEmail else opts["email"]
    ensures r.website == if IsEmpty(Read(opts, "website")) then blogUrl else opts["website"]
  {
    var phone := if IsEmpty(Read(opts, "contact-no")) then DefaultContactNo else opts["contact-no"];
    assert phone == DefaultContactNo ==> PhoneHref(phone) == "0000000000" by {
      if phone == DefaultContactNo { DefaultPhoneHref(phone); }
    }
    var email := if IsEmpty(Read(opts, "email")) then siteEmail else opts["email"];
    var website := if IsEmpty(Read(opts, "website")) then blogUrl else opts["website"];
    FooterContact(phone, PhoneHref(phone), email, website)
  }

  /**
   * The callback written for the `gettext` filter to replace "Howdy".  With
   * an empty option it returns null; outside the admin area or for another
   * text domain the text passes unchanged; otherwise every "Howdy" is
   * replaced.  The source only calls `str_replace` when `strpos` finds
   * "Howdy", which changes nothing because replacing an absent pattern is
   * the identity.  The plugin's registration of this filter is commented
   * out, so the function is modelled as written but is never called.
   */
  function ChangeHowdyText(opts: Options, translated: string, text: string, domain: string, isAdmin: bool): (r: Option<string>)
    ensures IsEmpty(Read(opts, "replace-howdy-text")) ==> r == None
    ensures !IsEmpty(Read(opts, "replace-howdy-text")) && (!isAdmin || domain != "default") ==>
              r == Some(translated)
    ensures !IsEmpty(Read(opts, "replace-howdy-text")) && isAdmin && domain == "default" ==>
              r == Some(ReplaceAll(translated, "Howdy", opts["replace-howdy-text"]))
  {
    var replacement := Read(opts, "replace-howdy-text");
    if IsEmpty(replacement) then None
    else if !isAdmin || domain != "default" then Some(translated)
    else if Contains(translated, "Howdy") then Some(ReplaceAll(translated, "Howdy", replacement.value))
    else
      ReplaceAllAbsent(translated, "Howdy", replacement.value);
      Some(translated)
  }

  /** `after` is `before` with `key => label` assigned, and nothing else changed. */
  ghost predicate AddsEntry(before: OMap<string, string>, after: OMap<string, string>, key: string, text: string) {
    && Valid(after)
    && key in after.m && after.m[key] == text
    && (forall k :: k != key ==> (k in after.m <==> k in before.m))
    && (forall k :: k != key && k in before.m ==> after.m[k] == before.m[k])
    && after.keys == if key in before.m then before.keys else before.keys + [key]
  }

  /** `user_contactmethods` filter adding a contact-number field. */
  function AddContactNoFieldsInUserProfile(contact: OMap<string, string>): (r: OMap<string, string>)
    requires Valid(contact)
    ensures AddsEntry(contact, r, "contact_no", "Contact No.")
  {
    Put(contact, "contact_no", "Contact No.")
  }

  /** `user_contactmethods` filter adding a Facebook field. */
  function AddFacebookFieldsInUserProfile(contact: OMap<string, string>): (r: OMap<string, string>)
    requires Valid(contact)
    ensures AddsEntry(contact, r, "facebook", "Facebook")
  {
    Put(contact, "facebook", "Facebook")
  }

  /** `user_contactmethods` filter adding a Twitter field. */
  function AddTwitterFieldsInUserProfile(contact: OMap<string, string>): (r: OMap<string, string>)
    requires Valid(contact)
    ensures AddsEntry(contact, r, "twitter", "Twitter")
  {
    Put(contact, "twitter", "Twitter")
  }

  /** `user_contactmethods` filter adding a LinkedIn field. */
  function AddLinkedinFieldsInUserProfile(contact: OMap<string, string>): (r: OMap<string, string>)
    requires Valid(contact)
    ensures AddsEntry(contact, r, "linkedin", "LinkedIn")
  {
    Put(contact, "linkedin", "LinkedIn")
  }

  /**
   * The contact methods a profile page shows once
   * `enable_additional_fields_in_user_profile` has registered the filters its
   * options enable, applied in registration order.
   */
  function UserContactMethods(opts: Options, contact: OMap<string, string>): (r: OMap<string, string>)
    requires Valid(contact)
    ensures Valid(r)
    ensures forall k :: k in r.m <==>
              || k in contact.m
              || (k == "contact_no" && Active(opts, UsersContactNo))
              || (k == "facebook" && Active(opts, UsersFacebookLink))
              || (k == "twitter" && Active(opts, UsersTwitterLink))
              || (k == "linkedin" && Active(opts, UsersLinkedinLink))
    ensures forall k :: k in contact.m && !Overwritten(opts, k) ==> k in r.m && r.m[k] == contact.m[k]
    ensures Active(opts, UsersContactNo) ==> "contact_no" in r.m && r.m["contact_no"] == "Contact No."
    ensures Active(opts, UsersFacebookLink) ==> "facebook" in r.m && r.m["facebook"] == "Facebook"
    ensures Active(opts, UsersTwitterLink) ==> "twitter" in r.m && r.m["twitter"] == "Twitter"
    ensures Active(opts, UsersLinkedinLink) ==> "linkedin" in r.m && r.m["linkedin"] == "LinkedIn"
    ensures |contact.keys| <= |r.keys| && r.keys[..|contact.keys|] == contact.keys
  {
    var b1, b2, b3, b4 := Active(opts, UsersContactNo), Active(opts, UsersFacebookLink),
                          Active(opts, UsersTwitterLink), Active(opts, UsersLinkedinLink);
    var c1 := if b1 then AddContactNoFieldsInUserProfile(contact) else contact;
    AddsEntryGrows(contact, c1, b1, "contact_no", "Contact No.");
    var c2 := if b2 then AddFacebookFieldsInUserProfile(c1) else c1;
    AddsEntryGrows(c1, c2, b2, "facebook", "Facebook");
    var c3 := if b3 then AddTwitterFieldsInUserProfile(c2) else c2;
    AddsEntryGrows(c2, c3, b3, "twitter", "Twitter");
    var c4 := if b4 then AddLinkedinFieldsInUserProfile(c3) else c3;
    AddsEntryGrows(c3, c4, b4, "linkedin", "LinkedIn");
    GrowsChain(contact, c1, c2, c3, c4, b1, b2, b3, b4, "contact_no", "facebook", "twitter", "linkedin",
               "Contact No.", "Facebook", "Twitter", "LinkedIn");
    c4
  }

  /** `k` is a profile key whose filter is enabled, so the filter writes its label there. */
  predicate Overwritten(opts: Options, k: string) {
    || (k == "contact_no" && Active(opts, UsersContactNo))
    || (k == "facebook" && Active(opts, UsersFacebookLink))
    || (k == "twitter" && Active(opts, UsersTwitterLink))
    || (k == "linkedin" && Active(opts, UsersLinkedinLink))
  }

  /** `after` is `before`, with `key => text` added when `cond` holds. */
  ghost predicate Grows(before: OMap<string, string>, after: OMap<string, string>, cond: bool, key: string, text: string) {
    && Valid(after)
    && (forall k :: k in after.m <==> k in before.m || (cond && k == key))
    && (forall k :: k in before.m && !(cond && k == key) ==> after.m[k] == before.m[k])
    && (cond ==> after.m[key] == text)
    && |before.keys| <= |after.keys| && after.keys[..|before.keys|] == before.keys
  }

  /** A filter that adds its entry when enabled and is skipped otherwise grows the map. */
  lemma AddsEntryGrows(before: OMap<string, string>, after: OMap<string, string>, cond: bool, key: string, text: string)
    requires Valid(before)
    requires cond ==> AddsEntry(before, after, key, text)
    requires !cond ==> after == before
    ensures Grows(before, after, cond, key, text)
  {
  }

  /** Four filters in a row, each adding its own distinct key. */
  lemma GrowsChain(c0: OMap<string, string>, c1: OMap<string, string>, c2: OMap<string, string>,
                   c3: OMap<string, string>, c4: OMap<string, string>, b1: bool, b2: bool, b3: bool, b4: bool,
                   k1: string, k2: string, k3: string, k4: string, t1: string, t2: string, t3: string, t4: string)
    requires k1 != k2 && k1 != k3 && k1 != k4 && k2 != k3 && k2 != k4 && k3 != k4
    requires Grows(c0, c1, b1, k1, t1) && Grows(c1, c2, b2, k2, t2)
    requires Grows(c2, c3, b3, k3, t3) && Grows(c3, c4, b4, k4, t4)
    ensures Valid(c4)
    ensures forall k :: k in c4.m <==>
              || k in c0.m || (k == k1 && b1) || (k == k2 && b2) || (k == k3 && b3) || (k == k4 && b4)
    ensures forall k :: k in c0.m && !(b1 && k == k1) && !(b2 && k == k2) && !(b3 && k == k3) && !(b4 && k == k4) ==>
              k in c4.m && c4.m[k] == c0.m[k]
    ensures b1 ==> k1 in c4.m && c4.m[k1] == t1
    ensures b2 ==> k2 in c4.m && c4.m[k2] == t2
    ensures b3 ==> k3 in c4.m && c4.m[k3] == t3
    ensures b4 ==> k4 in c4.m && c4.m[k4] == t4
    ensures |c0.keys| <= |c4.keys| && c4.keys[..|c0.keys|] == c0.keys
  {
    ChainMembers(c0, c1, c2, c3, c4, b1, b2, b3, b4, k1, k2, k3, k4, t1, t2, t3, t4);
    ChainKeeps(c0, c1, c2, c3, c4, b1, b2, b3, b4, k1, k2, k3, k4, t1, t2, t3, t4);
    ChainLabels(c0, c1, c2, c3, c4, b1, b2, b3, b4, k1, k2, k3, k4, t1, t2, t3, t4);
    PrefixOfPrefix(c0.keys, c1.keys, c2.keys);
    PrefixOfPrefix(c0.keys, c2.keys, c3.keys);
    PrefixOfPrefix(c0.keys, c3.keys, c4.keys);
  }

  /** `GrowsChain`: which keys the last map holds. */
  lemma ChainMembers(c0: OMap<string, string>, c1: OMap<string, string>, c2: OMap<string, string>,
                   c3: OMap<string, string>, c4: OMap<string, string>, b1: bool, b2: bool, b3: bool, b4: bool,
                   k1: string, k2: string, k3: string, k4: string, t1: string, t2: string, t3: string, t4: string)
    requires k1 != k2 && k1 != k3 && k1 != k4 && k2 != k3 && k2 != k4 && k3 != k4
    requires Grows(c0, c1, b1, k1, t1) && Grows(c1, c2, b2, k2, t2)
    requires Grows(c2, c3, b3, k3, t3) && Grows(c3, c4, b4, k4, t4)
    ensures forall k :: k in c4.m <==>
              || k in c0.m || (k == k1 && b1) || (k == k2 && b2) || (k == k3 && b3) || (k == k4 && b4)
  {
    forall k ensures k in c4.m <==> k in c0.m || (k == k1 && b1) || (k == k2 && b2) || (k == k3 && b3) || (k == k4 && b4) {
      assert k in c4.m <==> k in c3.m || (k == k4 && b4);
      assert k in c3.m <==> k in c2.m || (k == k3 && b3);
      assert k in c2.m <==> k in c1.m || (k == k2 && b2);
    }
  }

  /** `GrowsChain`: the entries no enabled filter writes. */
  lemma ChainKeeps(c0: OMap<string, string>, c1: OMap<string, string>, c2: OMap<string, string>,
                   c3: OMap<string, string>, c4: OMap<string, string>, b1: bool, b2: bool, b3: bool, b4: bool,
                   k1: string, k2: string, k3: string, k4: string, t1: string, t2: string, t3: string, t4: string)
    requires k1 != k2 && k1 != k3 && k1 != k4 && k2 != k3 && k2 != k4 && k3 != k4
    requires Grows(c0, c1, b1, k1, t1) && Grows(c1, c2, b2, k2, t2)
    requires Grows(c2, c3, b3, k3, t3) && Grows(c3, c4, b4, k4, t4)
    ensures forall k :: k in c0.m && !(b1 && k == k1) && !(b2 && k == k2) && !(b3 && k == k3) && !(b4 && k == k4) ==>
              k in c4.m && c4.m[k] == c0.m[k]
  {
    forall k | k in c0.m && !(b1 && k == k1) && !(b2 && k == k2) && !(b3 && k == k3) && !(b4 && k == k4)
      ensures k in c4.m && c4.m[k] == c0.m[k]
    {
      GrowsKeeps(c0, c1, b1, k1, t1, k);
      GrowsKeeps(c1, c2, b2, k2, t2, k);
      GrowsKeeps(c2, c3, b3, k3, t3, k);
      GrowsKeeps(c3, c4, b4, k4, t4, k);
    }
  }

  /** `GrowsChain`: the label each enabled filter writes. */
  lemma ChainLabels(c0: OMap<string, string>, c1: OMap<string, string>, c2: OMap<string, string>,
                   c3: OMap<string, string>, c4: OMap<string, string>, b1: bool, b2: bool, b3: bool, b4: bool,
                   k1: string, k2: string, k3: string, k4: string, t1: string, t2: string, t3: string, t4: string)
    requires k1 != k2 && k1 != k3 && k1 != k4 && k2 != k3 && k2 != k4 && k3 != k4
    requires Grows(c0, c1, b1, k1, t1) && Grows(c1, c2, b2, k2, t2)
    requires Grows(c2, c3, b3, k3, t3) && Grows(c3, c4, b4, k4, t4)
    ensures b1 ==> k1 in c4.m && c4.m[k1] == t1
    ensures b2 ==> k2 in c4.m && c4.m[k2] == t2
    ensures b3 ==> k3 in c4.m && c4.m[k3] == t3
    ensures b4 ==> k4 in c4.m && c4.m[k4] == t4
  {
    if b1 {
      GrowsKeeps(c1, c2, b2, k2, t2, k1);
      GrowsKeeps(c2, c3, b3, k3, t3, k1);
      GrowsKeeps(c3, c4, b4, k4, t4, k1);
    }
    if b2 {
      GrowsKeeps(c2, c3, b3, k3, t3, k2);
      GrowsKeeps(c3, c4, b4, k4, t4, k2);
    }
    if b3 {
      GrowsKeeps(c3, c4, b4, k4, t4, k3);
    }
  }

  /** An entry that one filter does not write survives it. */
  lemma GrowsKeeps(before: OMap<string, string>, after: OMap<string, string>, cond: bool, key: string, text: string, k: string)
    requires Grows(before, after, cond, key, text)
    requires k in before.m && !(cond && k == key)
    ensures k in after.m && after.m[k] == before.m[k]
  {
  }

  /** A prefix of a prefix is a prefix. */
  lemma PrefixOfPrefix(a: seq<string>, b: seq<string>, c: seq<string>)
    requires |a| <= |b| && b[..|a|] == a && |b| <= |c| && c[..|b|] == b
    ensures |a| <= |c| && c[..|a|] == a
  {
    assert c[..|a|] == c[..|b|][..|a|];
  }

  /** The admin menu order the plugin imposes: Pages, Posts and Media first, Settings last. */
  const AdminMenuOrder: seq<string> :=
    [ "edit.php?post_type=page", "edit.php", "upload.php", "separator1",
      "index.php", "themes.php", "edit-comments.php", "separator2",
      "plugins.php", "tools.php", "users.php", "options-general.php" ]

  /** The `menu_order` filter: the fixed order above, whatever order it is given. */
  function ReorderAdminMenu(menuOrder: seq<string>): (r: seq<string>)
    ensures r == AdminMenuOrder
    ensures |r| == 12 && forall i, j :: 0 <= i < j < |r| ==> r[i] != r[j]
  {
    AdminMenuOrder
  }

  /** The filter ignores the order WordPress hands it. */
  lemma ReorderIgnoresArgument(a: seq<string>, b: seq<string>)
    ensures ReorderAdminMenu(a) == ReorderAdminMenu(b)
  {
  }

  /** The post types whose comments are disabled: hard-wired to `all`. */
  function GetAllSelectedPosts(): seq<string> {
    ["all"]
  }

  /** The `comments_open`/`pings_open` filter. */
  function DisableCommentsStatus(): bool {
    false
  }

  /** The `comments_array` filter. */
  function DisableCommentsHideExistingComments(comments: seq<string>): seq<string> {
    []
  }

  /** The comment helpers do not depend on any option or argument. */
  lemma CommentHelpersAreConstant(comments: seq<string>)
    ensures GetAllSelectedPosts() == ["all"]
    ensures !DisableCommentsStatus()
    ensures DisableCommentsHideExistingComments(comments) == []
  {
  }

  /** A hook registration: `add_action`/`add_filter` of a callback on an event. */
  datatype Hook = Hook(event: string, callback: string)

  /** The hooks the "all post types" branch of `disable_comments` registers, in order. */
  const AllPostTypesHooks: seq<Hook> := [
    Hook("comments_open", "disable_comments_status"),
    Hook("pings_open", "disable_comments_status"),
    Hook("comments_array", "disable_comments_hide_existing_comments"),
    Hook("admin_menu", "disable_comments_admin_menu"),
    Hook("admin_init", "disable_comments_admin_menu_redirect"),
    Hook("admin_init", "disable_comments_dashboard"),
    Hook("init", "disable_comments_admin_bar"),
    Hook("wp_before_admin_bar_render", "admin_bar_render")
  ]

  /**
   * The hooks `disable_comments` registers.  Because the selected post types
   * are always `['all']`, an active toggle always takes the "all" branch.
   */
  function DisableCommentsHooks(opts: Options): (hooks: seq<Hook>)
    ensures !Active(opts, DisableComments) ==> hooks == []
    ensures Active(opts, DisableComments) ==>
              hooks == [Hook("admin_init", "disable_comments_post_types_support")] + AllPostTypesHooks
  {
    if !Active(opts, DisableComments) then []
    else
      var postTypes := GetAllSelectedPosts();
      [Hook("admin_init", "disable_comments_post_types_support")]
      + (if "all" in postTypes then AllPostTypesHooks else [])
  }
}
