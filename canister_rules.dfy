/** The pure rules of the deployed canister (src/index.ts): input
    validation, the case-insensitive username scans, pagination and the
    filter by liquor type. */
module CanisterRules {
  import opened Common
  import opened CanisterTypes

  /** The legal drinking age the canister enforces on sales. */
  const LEGAL_AGE: nat := 18

  /** One character of the class `[a-zA-Z0-9_-]`. */
  predicate IsUsernameChar(c: char) {
    ('a' <= c <= 'z') || ('A' <= c <= 'Z') || ('0' <= c <= '9') || c == '_' || c == '-'
  }

  /** The regular expression `^[a-zA-Z0-9_-]+$`: one character of the class,
      then either the end or another match. */
  predicate MatchesUsernamePattern(s: string) {
    |s| > 0 && IsUsernameChar(s[0]) && (|s| == 1 || MatchesUsernamePattern(s[1..]))
  }

  /** A string matches the username pattern exactly when it is non-empty and
      made of username characters only. */
  lemma {:induction false} UsernamePatternIsCharClass(s: string)
    ensures MatchesUsernamePattern(s) <==> |s| > 0 && forall i :: 0 <= i < |s| ==> IsUsernameChar(s[i])
  {
    if |s| > 1 {
      UsernamePatternIsCharClass(s[1..]);
      if forall i :: 0 <= i < |s| ==> IsUsernameChar(s[i]) {
        assert forall i :: 0 <= i < |s[1..]| ==> IsUsernameChar(s[1..][i]) by {
          forall i | 0 <= i < |s[1..]| ensures IsUsernameChar(s[1..][i]) {
            assert s[1..][i] == s[i + 1];
          }
        }
      }
      if MatchesUsernamePattern(s) {
        forall i | 0 <= i < |s| ensures IsUsernameChar(s[i]) {
          if i > 0 { assert s[i] == s[1..][i - 1]; }
        }
      }
    }
  }

  /** The UTF-16 code units of one character: two for a character outside
      the Basic Multilingual Plane (a surrogate pair), one otherwise. */
  function Utf16Units(c: char): nat {
    if c as int >= 0x1_0000 then 2 else 1
  }

  /** JavaScript's `length` of a string: the number of its UTF-16 code units. */
  function Utf16Length(s: string): (n: nat)
    ensures |s| <= n <= 2 * |s|
  {
    if s == [] then 0 else Utf16Units(s[0]) + Utf16Length(s[1..])
  }

  /** The UTF-16 length of a string is its number of characters exactly when
      none of them lies outside the Basic Multilingual Plane. */
  lemma {:induction false} Utf16LengthIsLength(s: string)
    ensures Utf16Length(s) == |s| <==> forall i :: 0 <= i < |s| ==> s[i] as int < 0x1_0000
  {
    if s != [] {
      Utf16LengthIsLength(s[1..]);
      assert forall i :: 1 <= i < |s| ==> s[i] == s[1..][i - 1];
    }
  }

  /** `isValidUsername`: a `length` of 3 to 20 and a match of
      `^[a-zA-Z0-9_-]+$`. Every character of the class is ASCII, so the
      UTF-16 length of a valid username is its number of characters. */
  function IsValidUsername(username: string): (r: bool)
    ensures r <==> 3 <= |username| <= 20 && forall i :: 0 <= i < |username| ==> IsUsernameChar(username[i])
  {
    UsernamePatternIsCharClass(username);
    Utf16LengthIsLength(username);
    Utf16Length(username) >= 3 && Utf16Length(username) <= 20 && MatchesUsernamePattern(username)
  }

  /** `isValidContactInfo`: a `length` of 1 to 100 UTF-16 code units. A
      contact of at most 50 characters passes whatever it contains, one of
      more than 100 never does, and in between it depends on how many
      characters lie outside the Basic Multilingual Plane. */
  function IsValidContactInfo(contactInfo: string): (r: bool)
    ensures r ==> 1 <= |contactInfo| <= 100
    ensures 1 <= |contactInfo| <= 50 ==> r
    ensures (forall i :: 0 <= i < |contactInfo| ==> contactInfo[i] as int < 0x1_0000)
            ==> (r <==> 1 <= |contactInfo| <= 100)
  {
    Utf16LengthIsLength(contactInfo);
    Utf16Length(contactInfo) > 0 && Utf16Length(contactInfo) <= 100
  }

  /** `isLegalAge`: sales are allowed from `LEGAL_AGE` (18) up. */
  function IsLegalAge(age: nat): (r: bool)
    ensures r <==> age >= 18
  {
    age >= LEGAL_AGE
  }

  /** ASCII lower case of one character; every other character is kept. */
  function LowerChar(c: char): char {
    if 'A' <= c <= 'Z' then (c as int - 'A' as int + 'a' as int) as char else c
  }

  /** `toLowerCase`, restricted to the ASCII letters. */
  function ToLower(s: string): (r: string)
    ensures |r| == |s|
    ensures forall i :: 0 <= i < |s| ==> r[i] == LowerChar(s[i])
  {
    if s == [] then [] else [LowerChar(s[0])] + ToLower(s[1..])
  }

  /** Two usernames that differ only in the case of ASCII letters. */
  predicate SameUsername(a: string, b: string) {
    ToLower(a) == ToLower(b)
  }

  /** `users.find(user => user.username.toLowerCase() === name.toLowerCase())`. */
  function FindByUsername(us: seq<User>, name: string): (r: Option<User>)
    ensures r.Some? <==> exists i :: 0 <= i < |us| && SameUsername(us[i].username, name)
    ensures r.Some? ==> r.value in us && SameUsername(r.value.username, name)
    ensures r.Some? ==> exists i :: 0 <= i < |us| && us[i] == r.value
                          && forall j :: 0 <= j < i ==> !SameUsername(us[j].username, name)
  {
    if us == [] then None
    else if SameUsername(us[0].username, name) then Some(us[0])
    else
      var rest := FindByUsername(us[1..], name);
      assert forall i :: 1 <= i < |us| ==> us[i] == us[1..][i - 1];
      rest
  }

  /** `users.some(user => user.id !== userId && <same username>)`. */
  function OtherHasUsername(us: seq<User>, userId: string, name: string): (r: bool)
    ensures r <==> exists i :: 0 <= i < |us| && us[i].id != userId && SameUsername(us[i].username, name)
  {
    if us == [] then false
    else if us[0].id != userId && SameUsername(us[0].username, name) then true
    else
      var rest := OtherHasUsername(us[1..], userId, name);
      assert forall i :: 1 <= i < |us| ==> us[i] == us[1..][i - 1];
      rest
  }

  function Min(a: nat, b: nat): nat { if a <= b then a else b }

  /** The pagination of `getAllUsers`: page `page` of size `pageSize` over all
      records. A page of size 0, an empty store and a page that starts past
      the end are errors; otherwise the JavaScript `slice(start, end)`, whose
      end is clamped to the length. */
  function PageOf<T>(all: seq<T>, page: nat, pageSize: nat): (r: Result<seq<T>, Errors>)
    ensures pageSize == 0 ==> r == Err(InvalidPayload)
    ensures pageSize > 0 && |all| == 0 ==> r == Err(UserDoesNotExist)
    ensures pageSize > 0 && |all| > 0 && page * pageSize >= |all| ==> r == Err(InvalidPayload)
    ensures r.Ok? <==> pageSize > 0 && page * pageSize < |all|
    ensures r.Ok? ==> 0 < |r.value| <= pageSize
    ensures r.Ok? ==> |r.value| == Min(pageSize, |all| - page * pageSize)
    ensures r.Ok? ==> forall i :: 0 <= i < |r.value| ==> r.value[i] == all[page * pageSize + i]
  {
    if pageSize == 0 then Err(InvalidPayload)
    else if |all| == 0 then Err(UserDoesNotExist)
    else
      var start := page * pageSize;
      var end := (page + 1) * pageSize;
      if start >= |all| then Err(InvalidPayload)
      else
        assert end == start + pageSize;
        Ok(all[start..Min(end, |all|)])
  }

  /** The pages `page`, `page + 1`, ... concatenated, up to the first page
      that is refused. */
  ghost function PagesFrom<T>(all: seq<T>, page: nat, pageSize: nat): seq<T>
    requires pageSize > 0
    decreases |all| - page * pageSize
  {
    match PageOf(all, page, pageSize)
    case Ok(xs) =>
      assert (page + 1) * pageSize == page * pageSize + pageSize;
      xs + PagesFrom(all, page + 1, pageSize)
    case Err(_) => []
  }

  /** From any page that starts inside the records, the remaining pages
      concatenate to exactly the remaining records. */
  lemma {:induction false} PagesFromRest<T>(all: seq<T>, page: nat, pageSize: nat)
    requires pageSize > 0 && page * pageSize <= |all|
    ensures PagesFrom(all, page, pageSize) == all[page * pageSize..]
    decreases |all| - page * pageSize
  {
    var start := page * pageSize;
    var next := (page + 1) * pageSize;
    assert next == start + pageSize;
    if start < |all| {
      var xs := PageOf(all, page, pageSize).value;
      if next <= |all| {
        PagesFromRest(all, page + 1, pageSize);
        assert xs == all[start..next];
        assert all[start..] == all[start..next] + all[next..];
      } else {
        assert xs == all[start..];
        assert PageOf(all, page + 1, pageSize).Err?;
      }
    }
  }

  /** Pagination determinism: for any page size, the pages 0, 1, 2, ...
      reconstruct every record exactly once, in order. */
  lemma PagesCoverAll<T>(all: seq<T>, pageSize: nat)
    requires pageSize > 0
    ensures PagesFrom(all, 0, pageSize) == all
  {
    PagesFromRest(all, 0, pageSize);
  }

  /** `products.filter(product => <same liquor type>)`: every product of type
      `t` is kept as often as it occurs, every other one is dropped. */
  function FilterByType(ps: seq<LiquorProduct>, t: LiquorType): (r: seq<LiquorProduct>)
    ensures forall p :: multiset(r)[p] == if p.liquorType == t then multiset(ps)[p] else 0
    ensures forall p :: p in r <==> p in ps && p.liquorType == t
  {
    if ps == [] then []
    else
      assert ps == [ps[0]] + ps[1..];
      (if ps[0].liquorType == t then [ps[0]] else []) + FilterByType(ps[1..], t)
  }
}
