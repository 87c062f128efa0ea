/** Substitution of customer and user fields into an engage message's text (`replaceKeys`). */
module Templates {
  import opened Outcomes
  import opened Records

  const CustomerNameKey := "{{customer.name}}"
  const CustomerEmailKey := "{{customer.email}}"
  const UserFullNameKey := "{{user.fullName}}"
  const UserPositionKey := "{{user.position}}"
  const UserEmailKey := "{{user.email}}"

  /** Whether `pat` occurs in `s` starting at position `k`. */
  predicate OccursAt(s: string, pat: string, k: int) {
    0 <= k && k + |pat| <= |s| && s[k..k + |pat|] == pat
  }

  /** Whether `pat` occurs in `s` at some position. */
  predicate Occurs(s: string, pat: string) {
    exists k | 0 <= k <= |s| :: OccursAt(s, pat, k)
  }

  /**
   * A global replace: scans left to right and replaces each non-overlapping occurrence
   * of `pat` by `rep`; the replacement text itself is not rescanned. Text in which the
   * pattern does not occur comes back unchanged.
   */
  function ReplaceAll(s: string, pat: string, rep: string): (r: string)
    requires |pat| > 0
    ensures !Occurs(s, pat) ==> r == s
    decreases |s|
  {
    if |s| < |pat| then s
    else if s[..|pat|] == pat then
      assert OccursAt(s, pat, 0);
      rep + ReplaceAll(s[|pat|..], pat, rep)
    else
      OccursInTail(s, pat);
      assert s == [s[0]] + s[1..];
      [s[0]] + ReplaceAll(s[1..], pat, rep)
  }

  /** The text a global `replace` inserts for a field: the field itself, or "undefined" when it is unset. */
  function Shown(field: Option<string>): string {
    match field
    case Some(text) => text
    case None => "undefined"
  }

  /**
   * `replaceKeys`: the five placeholders, replaced one after the other in this order.
   * Content with no `{{` is returned unchanged.
   */
  function ReplaceKeys(content: string, customer: Customer, user: User): (r: string)
    ensures !Occurs(content, "{{") ==> r == content
  {
    NoBracesNoPlaceholder(content, CustomerNameKey);
    NoBracesNoPlaceholder(content, CustomerEmailKey);
    NoBracesNoPlaceholder(content, UserFullNameKey);
    NoBracesNoPlaceholder(content, UserPositionKey);
    NoBracesNoPlaceholder(content, UserEmailKey);
    var afterName := ReplaceAll(content, CustomerNameKey, Shown(customer.name));
    var afterEmail := ReplaceAll(afterName, CustomerEmailKey, Shown(customer.email));
    var afterFullName := ReplaceAll(afterEmail, UserFullNameKey, Shown(user.fullName));
    var afterPosition := ReplaceAll(afterFullName, UserPositionKey, Shown(user.position));
    ReplaceAll(afterPosition, UserEmailKey, Shown(user.email))
  }

  lemma OccursInTail(s: string, pat: string)
    requires |s| > 0
    ensures Occurs(s[1..], pat) ==> Occurs(s, pat)
  {
    if !Occurs(s[1..], pat) {
      return;
    }
    var k :| 0 <= k <= |s[1..]| && OccursAt(s[1..], pat, k);
    assert s[1..][k..k + |pat|] == pat;
    assert s[k + 1..k + 1 + |pat|] == pat;
    assert OccursAt(s, pat, k + 1);
  }

  /** Replacing a placeholder by itself changes nothing. */
  lemma {:induction false} ReplaceAllBySelf(s: string, pat: string)
    requires |pat| > 0
    ensures ReplaceAll(s, pat, pat) == s
    decreases |s|
  {
    if |s| >= |pat| {
      if s[..|pat|] == pat {
        ReplaceAllBySelf(s[|pat|..], pat);
        assert s == s[..|pat|] + s[|pat|..];
      } else {
        ReplaceAllBySelf(s[1..], pat);
        assert s == [s[0]] + s[1..];
      }
    }
  }

  /** Text without the placeholder's first character is copied through, and the scan goes on after it. */
  lemma {:induction false} ReplaceAllSkipsPlainPrefix(t: string, rest: string, pat: string, rep: string)
    requires |pat| > 0
    requires pat[0] !in t
    ensures ReplaceAll(t + rest, pat, rep) == t + ReplaceAll(rest, pat, rep)
    decreases |t|
  {
    if |t| > 0 {
      var s := t + rest;
      if |s| < |pat| {
        assert ReplaceAll(rest, pat, rep) == rest;
      } else {
        assert s[..|pat|][0] == t[0] != pat[0];
        assert s[1..] == t[1..] + rest;
        ReplaceAllSkipsPlainPrefix(t[1..], rest, pat, rep);
        calc {
          ReplaceAll(s, pat, rep);
          [s[0]] + ReplaceAll(s[1..], pat, rep);
          [t[0]] + (t[1..] + ReplaceAll(rest, pat, rep));
          ([t[0]] + t[1..]) + ReplaceAll(rest, pat, rep);
          { assert t == [t[0]] + t[1..]; }
          t + ReplaceAll(rest, pat, rep);
        }
      }
    } else {
      assert t + rest == rest;
    }
  }

  /** An occurrence at the very front is replaced and the scan resumes after it. */
  lemma ReplaceAllAtFront(pat: string, rest: string, rep: string)
    requires |pat| > 0
    ensures ReplaceAll(pat + rest, pat, rep) == rep + ReplaceAll(rest, pat, rep)
  {
    assert (pat + rest)[..|pat|] == pat;
    assert (pat + rest)[|pat|..] == rest;
  }

  /** Every placeholder starts with `{{`, so text without `{{` contains none of them. */
  lemma NoBracesNoPlaceholder(s: string, key: string)
    requires |key| >= 2 && key[..2] == "{{"
    ensures !Occurs(s, "{{") ==> !Occurs(s, key)
  {
    if Occurs(s, key) {
      var k :| 0 <= k <= |s| && OccursAt(s, key, k);
      assert s[k..k + |key|] == key;
      assert s[k..k + 2] == s[k..k + |key|][..2];
      assert OccursAt(s, "{{", k);
    }
  }

  /** Replacing a whole placeholder yields the value put in for it. */
  lemma ReplaceAllExact(pat: string, rep: string)
    requires |pat| > 0
    ensures ReplaceAll(pat, pat, rep) == rep
  {
    ReplaceAllAtFront(pat, [], rep);
    assert pat + [] == pat;
  }

  /** Placeholders open with `{{` and hold no further `{`. */
  predicate OpensOnlyAtFront(s: string) {
    forall i | 2 <= i < |s| :: s[i] != '{'
  }

  /**
   * A placeholder cannot occur inside text that opens with `{{` and has no other `{`,
   * unless it is a prefix of that text.
   */
  lemma NotInsideOtherPlaceholder(s: string, pat: string)
    requires |pat| >= 2 && pat[1] == '{'
    requires OpensOnlyAtFront(s)
    requires !(|pat| <= |s| && s[..|pat|] == pat)
    ensures !Occurs(s, pat)
  {
    forall k | 0 <= k <= |s|
      ensures !OccursAt(s, pat, k)
    {
    }
  }

  /** No placeholder occurs inside one that is substituted after it. */
  lemma PlaceholdersDoNotOverlap()
    ensures !Occurs(CustomerEmailKey, CustomerNameKey)
    ensures !Occurs(UserFullNameKey, CustomerNameKey) && !Occurs(UserFullNameKey, CustomerEmailKey)
    ensures !Occurs(UserPositionKey, CustomerNameKey) && !Occurs(UserPositionKey, CustomerEmailKey)
    ensures !Occurs(UserPositionKey, UserFullNameKey)
    ensures !Occurs(UserEmailKey, CustomerNameKey) && !Occurs(UserEmailKey, CustomerEmailKey)
    ensures !Occurs(UserEmailKey, UserFullNameKey) && !Occurs(UserEmailKey, UserPositionKey)
  {
    assert CustomerEmailKey[11] != CustomerNameKey[11];
    NotInsideOtherPlaceholder(CustomerEmailKey, CustomerNameKey);
    assert UserFullNameKey[2] != CustomerNameKey[2];
    NotInsideOtherPlaceholder(UserFullNameKey, CustomerNameKey);
    NotInsideOtherPlaceholder(UserFullNameKey, CustomerEmailKey);
    assert UserPositionKey[2] != CustomerNameKey[2];
    NotInsideOtherPlaceholder(UserPositionKey, CustomerNameKey);
    NotInsideOtherPlaceholder(UserPositionKey, CustomerEmailKey);
    assert UserPositionKey[7] != UserFullNameKey[7];
    NotInsideOtherPlaceholder(UserPositionKey, UserFullNameKey);
    assert UserEmailKey[2] != CustomerNameKey[2];
    NotInsideOtherPlaceholder(UserEmailKey, CustomerNameKey);
    NotInsideOtherPlaceholder(UserEmailKey, CustomerEmailKey);
    assert UserEmailKey[7] != UserFullNameKey[7];
    NotInsideOtherPlaceholder(UserEmailKey, UserFullNameKey);
    assert UserEmailKey[7] != UserPositionKey[7];
    NotInsideOtherPlaceholder(UserEmailKey, UserPositionKey);
  }

  /** Text free of `{{` passes through every later substitution untouched. */
  lemma LaterPassesKeep(s: string, customer: Customer, user: User)
    requires !Occurs(s, "{{")
    ensures ReplaceAll(s, CustomerEmailKey, Shown(customer.email)) == s
    ensures ReplaceAll(s, UserFullNameKey, Shown(user.fullName)) == s
    ensures ReplaceAll(s, UserPositionKey, Shown(user.position)) == s
    ensures ReplaceAll(s, UserEmailKey, Shown(user.email)) == s
  {
    NoBracesNoPlaceholder(s, CustomerEmailKey);
    NoBracesNoPlaceholder(s, UserFullNameKey);
    NoBracesNoPlaceholder(s, UserPositionKey);
    NoBracesNoPlaceholder(s, UserEmailKey);
  }

  /** Text whose only `{` can be its first character contains no `{{`. */
  lemma BraceOnlyAtFront(w: string)
    requires forall j | 1 <= j < |w| :: w[j] != '{'
    ensures !Occurs(w, "{{")
  {
    forall k | 0 <= k <= |w|
      ensures !OccursAt(w, "{{", k)
    {
      if k + 2 <= |w| {
        assert w[k..k + 2][1] == w[k + 1] != '{';
        assert w[k..k + 2] != "{{";
      }
    }
  }

  /** Text without `{{` followed by text without `{` still has no `{{`. */
  lemma NoBracesAppend(v: string, u: string)
    requires !Occurs(v, "{{") && '{' !in u
    ensures !Occurs(v + u, "{{")
  {
    forall k | 0 <= k <= |v + u|
      ensures !OccursAt(v + u, "{{", k)
    {
      if k + 2 <= |v| {
        assert (v + u)[k..k + 2] == v[k..k + 2];
        assert !OccursAt(v, "{{", k);
      } else if k + 2 <= |v + u| {
        assert (v + u)[k + 1] == u[k + 1 - |v|] && u[k + 1 - |v|] in u;
        assert (v + u)[k..k + 2][1] == (v + u)[k + 1];
      }
    }
  }

  /**
   * A placeholder followed by text without `{` is left alone by the pass for another
   * placeholder, one that differs from it at position `i`.
   */
  lemma OtherKeyKept(key: string, u: string, pat: string, rep: string, i: nat)
    requires |key| >= 2 && key[1] == '{' && OpensOnlyAtFront(key)
    requires '{' !in u
    requires |pat| >= 2 && pat[..2] == "{{"
    requires i < |key| && i < |pat| && key[i] != pat[i]
    ensures ReplaceAll(key + u, pat, rep) == key + u
  {
    var s := key + u;
    if |s| >= |pat| {
      assert s[..|pat|][i] != pat[i];
      var w := s[1..];
      forall j | 1 <= j < |w|
        ensures w[j] != '{'
      {
        if j + 1 < |key| {
          assert w[j] == key[j + 1];
        } else {
          assert w[j] == u[j + 1 - |key|] && u[j + 1 - |key|] in u;
        }
      }
      BraceOnlyAtFront(w);
      NoBracesNoPlaceholder(w, pat);
      assert s == [s[0]] + w;
    }
  }

  /** A placeholder alone is left alone by the pass for another placeholder. */
  lemma KeyKept(key: string, pat: string, rep: string, i: nat)
    requires |key| >= 2 && key[1] == '{' && OpensOnlyAtFront(key)
    requires |pat| >= 2 && pat[..2] == "{{"
    requires i < |key| && i < |pat| && key[i] != pat[i]
    ensures ReplaceAll(key, pat, rep) == key
  {
    OtherKeyKept(key, [], pat, rep, i);
    assert key + [] == key;
  }

  /** The pass for `key` turns `key + u` into `v + u` when `u` has no `{`. */
  lemma OwnKeyReplaced(key: string, u: string, v: string)
    requires |key| >= 2 && key[..2] == "{{"
    requires '{' !in u
    ensures ReplaceAll(key + u, key, v) == v + u
  {
    ReplaceAllAtFront(key, u, v);
    NoOpenBraceNoBraces(u);
    NoBracesNoPlaceholder(u, key);
  }

  lemma NameInText(u: string, customer: Customer, user: User)
    requires '{' !in u
    requires !Occurs(Shown(customer.name), "{{")
    ensures ReplaceKeys(CustomerNameKey + u, customer, user) == Shown(customer.name) + u
  {
    OwnKeyReplaced(CustomerNameKey, u, Shown(customer.name));
    NoBracesAppend(Shown(customer.name), u);
    LaterPassesKeep(Shown(customer.name) + u, customer, user);
  }

  lemma CustomerEmailInText(u: string, customer: Customer, user: User)
    requires '{' !in u
    requires !Occurs(Shown(customer.email), "{{")
    ensures ReplaceKeys(CustomerEmailKey + u, customer, user) == Shown(customer.email) + u
  {
    OtherKeyKept(CustomerEmailKey, u, CustomerNameKey, Shown(customer.name), 11);
    OwnKeyReplaced(CustomerEmailKey, u, Shown(customer.email));
    NoBracesAppend(Shown(customer.email), u);
    LaterPassesKeep(Shown(customer.email) + u, customer, user);
  }

  lemma FullNameInText(u: string, customer: Customer, user: User)
    requires '{' !in u
    requires !Occurs(Shown(user.fullName), "{{")
    ensures ReplaceKeys(UserFullNameKey + u, customer, user) == Shown(user.fullName) + u
  {
    OtherKeyKept(UserFullNameKey, u, CustomerNameKey, Shown(customer.name), 2);
    OtherKeyKept(UserFullNameKey, u, CustomerEmailKey, Shown(customer.email), 2);
    OwnKeyReplaced(UserFullNameKey, u, Shown(user.fullName));
    NoBracesAppend(Shown(user.fullName), u);
    LaterPassesKeep(Shown(user.fullName) + u, customer, user);
  }

  lemma PositionInText(u: string, customer: Customer, user: User)
    requires '{' !in u
    requires !Occurs(Shown(user.position), "{{")
    ensures ReplaceKeys(UserPositionKey + u, customer, user) == Shown(user.position) + u
  {
    OtherKeyKept(UserPositionKey, u, CustomerNameKey, Shown(customer.name), 2);
    OtherKeyKept(UserPositionKey, u, CustomerEmailKey, Shown(customer.email), 2);
    OtherKeyKept(UserPositionKey, u, UserFullNameKey, Shown(user.fullName), 7);
    OwnKeyReplaced(UserPositionKey, u, Shown(user.position));
    NoBracesAppend(Shown(user.position), u);
    LaterPassesKeep(Shown(user.position) + u, customer, user);
  }

  lemma UserEmailInText(u: string, customer: Customer, user: User)
    requires '{' !in u
    ensures ReplaceKeys(UserEmailKey + u, customer, user) == Shown(user.email) + u
  {
    OtherKeyKept(UserEmailKey, u, CustomerNameKey, Shown(customer.name), 2);
    OtherKeyKept(UserEmailKey, u, CustomerEmailKey, Shown(customer.email), 2);
    OtherKeyKept(UserEmailKey, u, UserFullNameKey, Shown(user.fullName), 7);
    OtherKeyKept(UserEmailKey, u, UserPositionKey, Shown(user.position), 7);
    OwnKeyReplaced(UserEmailKey, u, Shown(user.email));
  }

  /**
   * A placeholder between two stretches of text without `{` becomes the text of its
   * field ("undefined" for an unset field) and the surrounding text is kept, as long as
   * the substituted value does not itself contain `{{` (every later pass rescans it).
   */
  lemma ReplaceKeysPlaceholders(t: string, u: string, customer: Customer, user: User)
    requires '{' !in t && '{' !in u
    requires !Occurs(Shown(customer.name), "{{") && !Occurs(Shown(customer.email), "{{")
    requires !Occurs(Shown(user.fullName), "{{") && !Occurs(Shown(user.position), "{{")
    ensures ReplaceKeys(t + CustomerNameKey + u, customer, user) == t + Shown(customer.name) + u
    ensures ReplaceKeys(t + CustomerEmailKey + u, customer, user) == t + Shown(customer.email) + u
    ensures ReplaceKeys(t + UserFullNameKey + u, customer, user) == t + Shown(user.fullName) + u
    ensures ReplaceKeys(t + UserPositionKey + u, customer, user) == t + Shown(user.position) + u
    ensures ReplaceKeys(t + UserEmailKey + u, customer, user) == t + Shown(user.email) + u
  {
    NameInText(u, customer, user);
    PlaceholderInText(t, CustomerNameKey, u, Shown(customer.name), customer, user);
    CustomerEmailInText(u, customer, user);
    PlaceholderInText(t, CustomerEmailKey, u, Shown(customer.email), customer, user);
    FullNameInText(u, customer, user);
    PlaceholderInText(t, UserFullNameKey, u, Shown(user.fullName), customer, user);
    PositionInText(u, customer, user);
    PlaceholderInText(t, UserPositionKey, u, Shown(user.position), customer, user);
    UserEmailInText(u, customer, user);
    PlaceholderInText(t, UserEmailKey, u, Shown(user.email), customer, user);
  }

  /** Moves a placeholder result from the front of the text to after a plain prefix. */
  lemma PlaceholderInText(t: string, key: string, u: string, v: string, customer: Customer, user: User)
    requires '{' !in t
    requires ReplaceKeys(key + u, customer, user) == v + u
    ensures ReplaceKeys(t + key + u, customer, user) == t + v + u
  {
    calc {
      ReplaceKeys(t + key + u, customer, user);
      { assert t + key + u == t + (key + u); }
      ReplaceKeys(t + (key + u), customer, user);
      { ReplaceKeysPlainPrefix(t, key + u, customer, user); }
      t + ReplaceKeys(key + u, customer, user);
      t + (v + u);
      { assert t + (v + u) == t + v + u; }
      t + v + u;
    }
  }

  /**
   * The name pass runs before the customer email pass: a name that reads
   * `{{customer.email}}` is rescanned into the email, while an email that reads
   * `{{customer.name}}` stays literal.
   */
  lemma NameBeforeCustomerEmail(customer: Customer, user: User)
    ensures customer.name == Some(CustomerEmailKey) && !Occurs(Shown(customer.email), "{{") ==>
              ReplaceKeys(CustomerNameKey, customer, user) == Shown(customer.email)
    ensures customer.email == Some(CustomerNameKey) ==>
              ReplaceKeys(CustomerEmailKey, customer, user) == CustomerNameKey
  {
    if customer.name == Some(CustomerEmailKey) && !Occurs(Shown(customer.email), "{{") {
      ReplaceAllExact(CustomerNameKey, CustomerEmailKey);
      ReplaceAllExact(CustomerEmailKey, Shown(customer.email));
      LaterPassesKeep(Shown(customer.email), customer, user);
    }
    if customer.email == Some(CustomerNameKey) {
      PlaceholdersDoNotOverlap();
      ReplaceAllExact(CustomerEmailKey, CustomerNameKey);
      KeyKept(CustomerNameKey, UserFullNameKey, Shown(user.fullName), 2);
      KeyKept(CustomerNameKey, UserPositionKey, Shown(user.position), 2);
      KeyKept(CustomerNameKey, UserEmailKey, Shown(user.email), 2);
    }
  }

  /**
   * The customer email pass runs before the full-name pass: an email that reads
   * `{{user.fullName}}` is rescanned into the full name, while a full name that reads
   * `{{customer.email}}` stays literal.
   */
  lemma CustomerEmailBeforeFullName(customer: Customer, user: User)
    ensures customer.email == Some(UserFullNameKey) && !Occurs(Shown(user.fullName), "{{") ==>
              ReplaceKeys(CustomerEmailKey, customer, user) == Shown(user.fullName)
    ensures user.fullName == Some(CustomerEmailKey) ==>
              ReplaceKeys(UserFullNameKey, customer, user) == CustomerEmailKey
  {
    PlaceholdersDoNotOverlap();
    if customer.email == Some(UserFullNameKey) && !Occurs(Shown(user.fullName), "{{") {
      ReplaceAllExact(CustomerEmailKey, UserFullNameKey);
      ReplaceAllExact(UserFullNameKey, Shown(user.fullName));
      LaterPassesKeep(Shown(user.fullName), customer, user);
    }
    if user.fullName == Some(CustomerEmailKey) {
      ReplaceAllExact(UserFullNameKey, CustomerEmailKey);
      KeyKept(CustomerEmailKey, UserPositionKey, Shown(user.position), 2);
      KeyKept(CustomerEmailKey, UserEmailKey, Shown(user.email), 2);
    }
  }

  /**
   * The full-name pass runs before the position pass: a full name that reads
   * `{{user.position}}` is rescanned into the position, while a position that reads
   * `{{user.fullName}}` stays literal.
   */
  lemma FullNameBeforePosition(customer: Customer, user: User)
    ensures user.fullName == Some(UserPositionKey) && !Occurs(Shown(user.position), "{{") ==>
              ReplaceKeys(UserFullNameKey, customer, user) == Shown(user.position)
    ensures user.position == Some(UserFullNameKey) ==>
              ReplaceKeys(UserPositionKey, customer, user) == UserFullNameKey
  {
    PlaceholdersDoNotOverlap();
    if user.fullName == Some(UserPositionKey) && !Occurs(Shown(user.position), "{{") {
      ReplaceAllExact(UserFullNameKey, UserPositionKey);
      ReplaceAllExact(UserPositionKey, Shown(user.position));
      LaterPassesKeep(Shown(user.position), customer, user);
    }
    if user.position == Some(UserFullNameKey) {
      ReplaceAllExact(UserPositionKey, UserFullNameKey);
      KeyKept(UserFullNameKey, UserEmailKey, Shown(user.email), 7);
    }
  }

  /**
   * The position pass runs before the user email pass, the last one: a position that
   * reads `{{user.email}}` is rescanned into the email, while an email that reads
   * `{{user.position}}` stays literal.
   */
  lemma PositionBeforeUserEmail(customer: Customer, user: User)
    ensures user.position == Some(UserEmailKey) ==>
              ReplaceKeys(UserPositionKey, customer, user) == Shown(user.email)
    ensures user.email == Some(UserPositionKey) ==>
              ReplaceKeys(UserEmailKey, customer, user) == UserPositionKey
  {
    PlaceholdersDoNotOverlap();
    if user.position == Some(UserEmailKey) {
      ReplaceAllExact(UserPositionKey, UserEmailKey);
      ReplaceAllExact(UserEmailKey, Shown(user.email));
    }
    if user.email == Some(UserPositionKey) {
      ReplaceAllExact(UserEmailKey, UserPositionKey);
    }
  }

  /**
   * The fixed order is observable: a customer whose name is itself a user placeholder
   * gets the user's field in its place.
   */
  lemma CustomerValueIsRescanned(customer: Customer, user: User)
    requires customer.name == Some(UserEmailKey)
    ensures ReplaceKeys(CustomerNameKey, customer, user) == Shown(user.email)
  {
    PlaceholdersDoNotOverlap();
    ReplaceAllExact(CustomerNameKey, Shown(customer.name));
    ReplaceAllExact(UserEmailKey, Shown(user.email));
  }

  /** Text with no `{` at all contains no `{{`. */
  lemma NoOpenBraceNoBraces(s: string)
    requires '{' !in s
    ensures !Occurs(s, "{{")
  {
    forall k | 0 <= k <= |s|
      ensures !OccursAt(s, "{{", k)
    {
      if k + 2 <= |s| {
        assert s[k..k + 2][0] == s[k] && s[k] in s;
      }
    }
  }

  /**
   * An unset customer name is shown as the text "undefined": the replacement value is
   * converted to a string, and that text is not itself a placeholder for a later pass.
   */
  lemma UnsetNameShowsUndefined(customer: Customer, user: User)
    requires customer.name.None?
    ensures ReplaceKeys(CustomerNameKey, customer, user) == "undefined"
  {
    ReplaceAllExact(CustomerNameKey, "undefined");
    NoOpenBraceNoBraces("undefined");
    LaterPassesKeep("undefined", customer, user);
  }

  /** Leading text with no `{` is copied unchanged and substitution applies to the rest. */
  lemma ReplaceKeysPlainPrefix(t: string, rest: string, customer: Customer, user: User)
    requires '{' !in t
    ensures ReplaceKeys(t + rest, customer, user) == t + ReplaceKeys(rest, customer, user)
  {
    var r1 := ReplaceAll(rest, CustomerNameKey, Shown(customer.name));
    var r2 := ReplaceAll(r1, CustomerEmailKey, Shown(customer.email));
    var r3 := ReplaceAll(r2, UserFullNameKey, Shown(user.fullName));
    var r4 := ReplaceAll(r3, UserPositionKey, Shown(user.position));
    ReplaceAllSkipsPlainPrefix(t, rest, CustomerNameKey, Shown(customer.name));
    ReplaceAllSkipsPlainPrefix(t, r1, CustomerEmailKey, Shown(customer.email));
    ReplaceAllSkipsPlainPrefix(t, r2, UserFullNameKey, Shown(user.fullName));
    ReplaceAllSkipsPlainPrefix(t, r3, UserPositionKey, Shown(user.position));
    ReplaceAllSkipsPlainPrefix(t, r4, UserEmailKey, Shown(user.email));
  }

  // ---------------------------------------------------------------------------
  // Templates with any number of placeholders
  // ---------------------------------------------------------------------------

  /**
   * A global replace copies a prefix through unchanged when no occurrence of the pattern
   * starts inside it, even if one starts right after it.
   */
  lemma {:induction false} ReplaceAllSkips(t: string, rest: string, pat: string, rep: string)
    requires |pat| > 0
    requires forall k | 0 <= k < |t| :: !OccursAt(t + rest, pat, k)
    ensures ReplaceAll(t + rest, pat, rep) == t + ReplaceAll(rest, pat, rep)
    decreases |t|
  {
    var s := t + rest;
    if |t| == 0 {
      assert s == rest;
    } else if |s| < |pat| {
      assert ReplaceAll(rest, pat, rep) == rest;
    } else {
      assert !OccursAt(s, pat, 0);
      assert s[1..] == t[1..] + rest;
      forall k | 0 <= k < |t[1..]|
        ensures !OccursAt(t[1..] + rest, pat, k)
      {
        assert !OccursAt(s, pat, k + 1);
        if k + |pat| <= |t[1..] + rest| {
          assert (t[1..] + rest)[k..k + |pat|] == s[k + 1..k + 1 + |pat|];
        }
      }
      ReplaceAllSkips(t[1..], rest, pat, rep);
      calc {
        ReplaceAll(s, pat, rep);
        [s[0]] + ReplaceAll(t[1..] + rest, pat, rep);
        [t[0]] + (t[1..] + ReplaceAll(rest, pat, rep));
        ([t[0]] + t[1..]) + ReplaceAll(rest, pat, rep);
        { assert t == [t[0]] + t[1..]; }
        t + ReplaceAll(rest, pat, rep);
      }
    }
  }

  /**
   * A placeholder at the front is copied through by the pass for a different placeholder
   * (one that differs from it at position `i`), whatever follows it.
   */
  lemma KeyThenSkips(key: string, rest: string, pat: string, rep: string, i: nat)
    requires |key| >= 3 && key[..2] == "{{" && OpensOnlyAtFront(key)
    requires |pat| >= 2 && pat[..2] == "{{"
    requires i < |key| && i < |pat| && key[i] != pat[i]
    ensures ReplaceAll(key + rest, pat, rep) == key + ReplaceAll(rest, pat, rep)
  {
    var s := key + rest;
    assert pat[0] == pat[..2][0] && pat[1] == pat[..2][1];
    forall k | 0 <= k < |key|
      ensures !OccursAt(s, pat, k)
    {
      if k + |pat| <= |s| {
        if k == 0 {
          assert s[k..k + |pat|][i] == key[i];
        } else if k == 1 {
          assert s[k..k + |pat|][1] == key[2];
        } else {
          assert s[k..k + |pat|][0] == key[k];
        }
      }
    }
    ReplaceAllSkips(key, rest, pat, rep);
  }

  /** The five fields a template can mention, in the order `replaceKeys` substitutes them. */
  datatype Field = CustomerName | CustomerEmail | UserFullName | UserPosition | UserEmail

  function Rank(f: Field): nat {
    match f
    case CustomerName => 0
    case CustomerEmail => 1
    case UserFullName => 2
    case UserPosition => 3
    case UserEmail => 4
  }

  function Placeholder(f: Field): string {
    match f
    case CustomerName => CustomerNameKey
    case CustomerEmail => CustomerEmailKey
    case UserFullName => UserFullNameKey
    case UserPosition => UserPositionKey
    case UserEmail => UserEmailKey
  }

  /** The text a field contributes once substituted. */
  function FieldText(f: Field, customer: Customer, user: User): string {
    match f
    case CustomerName => Shown(customer.name)
    case CustomerEmail => Shown(customer.email)
    case UserFullName => Shown(user.fullName)
    case UserPosition => Shown(user.position)
    case UserEmail => Shown(user.email)
  }

  /** A piece of a message template: literal text or one placeholder. */
  datatype Piece = Literal(text: string) | Slot(field: Field)

  /** The template as it is stored in the engage message's content. */
  function Spelled(pieces: seq<Piece>): string {
    if |pieces| == 0 then []
    else
      (match pieces[0]
       case Literal(text) => text
       case Slot(f) => Placeholder(f)) + Spelled(pieces[1..])
  }

  /** The intended message: every placeholder replaced by its field's text, in one go. */
  function Filled(pieces: seq<Piece>, customer: Customer, user: User): string {
    if |pieces| == 0 then []
    else
      (match pieces[0]
       case Literal(text) => text
       case Slot(f) => FieldText(f, customer, user)) + Filled(pieces[1..], customer, user)
  }

  /** The content after the first `passes` substitutions of `replaceKeys`. */
  function Stage(pieces: seq<Piece>, passes: nat, customer: Customer, user: User): string {
    if |pieces| == 0 then []
    else
      (match pieces[0]
       case Literal(text) => text
       case Slot(f) => if Rank(f) < passes then FieldText(f, customer, user) else Placeholder(f))
      + Stage(pieces[1..], passes, customer, user)
  }

  predicate LiteralsWithoutBraces(pieces: seq<Piece>) {
    forall k | 0 <= k < |pieces| :: pieces[k].Literal? ==> '{' !in pieces[k].text
  }

  predicate FieldsWithoutBraces(customer: Customer, user: User) {
    forall f: Field :: '{' !in FieldText(f, customer, user)
  }

  /** Where two different placeholders first differ. */
  function DiffIndex(a: Field, b: Field): nat {
    if Rank(a) <= 1 && Rank(b) <= 1 then 11
    else if Rank(a) >= 2 && Rank(b) >= 2 then 7
    else 2
  }

  lemma PlaceholderShape(f: Field)
    ensures |Placeholder(f)| >= 3 && Placeholder(f)[..2] == "{{" && Placeholder(f)[0] == '{'
    ensures OpensOnlyAtFront(Placeholder(f))
  {
  }

  lemma PlaceholdersDiffer(a: Field, b: Field)
    requires a != b
    ensures DiffIndex(a, b) < |Placeholder(a)| && DiffIndex(a, b) < |Placeholder(b)|
    ensures Placeholder(a)[DiffIndex(a, b)] != Placeholder(b)[DiffIndex(a, b)]
  {
  }

  /** One pass of `replaceKeys` turns stage `Rank(f)` of a template into the next stage. */
  lemma {:induction false} PassStep(pieces: seq<Piece>, f: Field, customer: Customer, user: User)
    requires LiteralsWithoutBraces(pieces) && FieldsWithoutBraces(customer, user)
    ensures ReplaceAll(Stage(pieces, Rank(f), customer, user), Placeholder(f), FieldText(f, customer, user))
            == Stage(pieces, Rank(f) + 1, customer, user)
    decreases |pieces|
  {
    if |pieces| > 0 {
      var pat := Placeholder(f);
      var rep := FieldText(f, customer, user);
      var rest := Stage(pieces[1..], Rank(f), customer, user);
      PlaceholderShape(f);
      assert LiteralsWithoutBraces(pieces[1..]) by {
        forall k | 0 <= k < |pieces[1..]| ensures pieces[1..][k] == pieces[k + 1] { }
      }
      PassStep(pieces[1..], f, customer, user);
      match pieces[0]
      case Literal(text) =>
        assert '{' !in text by { assert pieces[0].Literal?; }
        ReplaceAllSkipsPlainPrefix(text, rest, pat, rep);
      case Slot(g) =>
        if Rank(g) < Rank(f) {
          assert '{' !in FieldText(g, customer, user);
          ReplaceAllSkipsPlainPrefix(FieldText(g, customer, user), rest, pat, rep);
        } else if g == f {
          ReplaceAllAtFront(pat, rest, rep);
        } else {
          PlaceholderShape(g);
          PlaceholdersDiffer(g, f);
          KeyThenSkips(Placeholder(g), rest, pat, rep, DiffIndex(g, f));
        }
    }
  }

  lemma {:induction false} StageBounds(pieces: seq<Piece>, customer: Customer, user: User)
    ensures Stage(pieces, 0, customer, user) == Spelled(pieces)
    ensures Stage(pieces, 5, customer, user) == Filled(pieces, customer, user)
    decreases |pieces|
  {
    if |pieces| > 0 {
      StageBounds(pieces[1..], customer, user);
    }
  }

  /**
   * For any template of literal text and placeholders, `replaceKeys` gives the intended
   * message: each placeholder replaced by its field's text and the literal text kept.
   * Literal text and field texts are free of `{`, so no pass can see a placeholder that
   * the template did not spell out.
   */
  lemma ReplaceKeysFillsTemplate(pieces: seq<Piece>, customer: Customer, user: User)
    requires LiteralsWithoutBraces(pieces) && FieldsWithoutBraces(customer, user)
    ensures ReplaceKeys(Spelled(pieces), customer, user) == Filled(pieces, customer, user)
  {
    StageBounds(pieces, customer, user);
    PassesReachStage(pieces, 5, customer, user);
    ReplaceKeysIsFivePasses(Spelled(pieces), customer, user);
  }

  /** The field substituted by pass `n` (counting from 0). */
  function FieldOfPass(n: nat): (f: Field)
    requires n < 5
    ensures Rank(f) == n
  {
    if n == 0 then CustomerName
    else if n == 1 then CustomerEmail
    else if n == 2 then UserFullName
    else if n == 3 then UserPosition
    else UserEmail
  }

  /** The content after the first `n` passes of `replaceKeys`. */
  function AfterPasses(content: string, n: nat, customer: Customer, user: User): string
    requires n <= 5
  {
    if n == 0 then content
    else
      var f := FieldOfPass(n - 1);
      ReplaceAll(AfterPasses(content, n - 1, customer, user), Placeholder(f), FieldText(f, customer, user))
  }

  lemma ReplaceKeysIsFivePasses(content: string, customer: Customer, user: User)
    ensures ReplaceKeys(content, customer, user) == AfterPasses(content, 5, customer, user)
  {
    assert AfterPasses(content, 1, customer, user)
           == ReplaceAll(content, CustomerNameKey, Shown(customer.name));
    assert AfterPasses(content, 3, customer, user)
           == ReplaceAll(ReplaceAll(AfterPasses(content, 1, customer, user), CustomerEmailKey,
                                    Shown(customer.email)), UserFullNameKey, Shown(user.fullName));
  }

  lemma {:induction false} PassesReachStage(pieces: seq<Piece>, n: nat, customer: Customer, user: User)
    requires n <= 5
    requires LiteralsWithoutBraces(pieces) && FieldsWithoutBraces(customer, user)
    ensures AfterPasses(Spelled(pieces), n, customer, user) == Stage(pieces, n, customer, user)
  {
    if n == 0 {
      StageBounds(pieces, customer, user);
    } else {
      PassesReachStage(pieces, n - 1, customer, user);
      PassStep(pieces, FieldOfPass(n - 1), customer, user);
    }
  }

  /** A user placeholder before a customer placeholder: both are substituted. */
  lemma TwoPlaceholdersScenario(customer: Customer, user: User)
    requires FieldsWithoutBraces(customer, user)
    requires customer.name == Some("Ann") && user.fullName == Some("Bob")
    ensures ReplaceKeys(UserFullNameKey + CustomerNameKey, customer, user) == "BobAnn"
  {
    var pieces := [Slot(UserFullName), Slot(CustomerName)];
    assert pieces[1..] == [Slot(CustomerName)] && pieces[1..][1..] == [];
    assert Spelled(pieces[1..]) == CustomerNameKey + [];
    assert Spelled(pieces) == UserFullNameKey + CustomerNameKey;
    assert Filled(pieces[1..], customer, user) == "Ann" + [];
    assert Filled(pieces, customer, user) == "Bob" + "Ann";
    ReplaceKeysFillsTemplate(pieces, customer, user);
  }
}
