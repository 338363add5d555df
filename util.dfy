/** apphub/app/util.py: slugs for names, tag lists from a comma-separated
    form field, the client address behind a proxy, and the comma-joined
    filter value. */
module Util {
  import opened Text
  import opened Http

  /** A character the slug pattern keeps: `[a-z0-9-]`. */
  predicate SlugChar(c: char) {
    'a' <= c <= 'z' || '0' <= c <= '9' || c == '-'
  }

  predicate IsSlug(s: string) {
    forall i :: 0 <= i < |s| ==> SlugChar(s[i])
  }

  /** `s.replace(" ", "-")`: only the plain space is replaced. */
  function DashSpaces(s: string): string {
    seq(|s|, i requires 0 <= i < |s| => if s[i] == ' ' then '-' else s[i])
  }

  /** `re.sub(r"[^a-z0-9-]", "", s)`: keeps the slug characters of `s`, in order,
      and leaves a string made only of slug characters as it is. */
  function KeepSlugChars(s: string): (r: string)
    ensures IsSlug(r)
    ensures |r| <= |s|
    ensures IsSlug(s) ==> r == s
    decreases |s|
  {
    if s == [] then ""
    else if SlugChar(s[0]) then [s[0]] + KeepSlugChars(s[1..])
    else KeepSlugChars(s[1..])
  }

  /** The pattern works character by character: the kept characters of a
      concatenation are those of each part, in order. */
  lemma {:induction false} KeepSlugCharsConcat(a: string, b: string)
    ensures KeepSlugChars(a + b) == KeepSlugChars(a) + KeepSlugChars(b)
    decreases |a|
  {
    if a == [] {
      assert a + b == b;
    } else {
      assert (a + b)[0] == a[0];
      assert (a + b)[1..] == a[1..] + b;
      KeepSlugCharsConcat(a[1..], b);
    }
  }

  /** One character is kept exactly when it matches `[a-z0-9-]`. */
  lemma KeepSlugCharsOne(c: char)
    ensures KeepSlugChars([c]) == if SlugChar(c) then [c] else []
  {
    assert [c][1..] == [];
  }

  /** `slugify(value)`: strip, lower-case, spaces to dashes, then drop
      everything outside `[a-z0-9-]`. */
  function Slugify(value: string): (slug: string)
    ensures IsSlug(slug)
    ensures |slug| <= |value|
  {
    StripShape(value);
    KeepSlugChars(DashSpaces(Lower(Strip(value))))
  }

  /** A string that is already a slug is its own slug. */
  lemma SlugifyKeepsSlugs(s: string)
    requires IsSlug(s)
    ensures Slugify(s) == s
  {
    assert NoOuterSpace(s);
    StripOfStripped(s);
    assert Lower(s) == s;
    assert DashSpaces(s) == s;
  }

  /** `slugify` is idempotent. */
  lemma SlugifyIdempotent(value: string)
    ensures Slugify(Slugify(value)) == Slugify(value)
  {
    SlugifyKeepsSlugs(Slugify(value));
  }

  lemma SlugUnchanged(s: string)
    requires IsSlug(s)
    ensures Lower(s) == s && DashSpaces(s) == s && NoOuterSpace(s)
  {
  }

  lemma SpaceAndDash()
    ensures Lower(" ") == " " && DashSpaces(" ") == "-" && IsSlug("-")
  {
    assert Lower(" ")[0] == ' ';
    assert DashSpaces(" ")[0] == '-';
  }

  lemma SlugConcat(a: string, b: string)
    requires IsSlug(a) && IsSlug(b)
    ensures IsSlug(a + b)
  {
    forall i | 0 <= i < |a + b| ensures SlugChar((a + b)[i]) {
      if i < |a| { assert (a + b)[i] == a[i]; } else { assert (a + b)[i] == b[i - |a|]; }
    }
  }

  lemma DashSpacesConcat(a: string, b: string)
    ensures DashSpaces(a + b) == DashSpaces(a) + DashSpaces(b)
  {
  }

  /** Two slug words separated by one space become the words joined by a dash. */
  lemma SlugifyJoinsWords(a: string, b: string)
    requires IsSlug(a) && IsSlug(b) && a != "" && b != ""
    ensures Slugify(a + " " + b) == a + "-" + b
  {
    var s := a + " " + b;
    SlugUnchanged(a);
    SlugUnchanged(b);
    assert NoOuterSpace(s) by {
      assert s[0] == a[0] && s[|s| - 1] == b[|b| - 1];
    }
    StripOfStripped(s);
    SpaceAndDash();
    LowerConcat(a + " ", b);
    LowerConcat(a, " ");
    assert Lower(s) == s;
    DashSpacesConcat(a + " ", b);
    DashSpacesConcat(a, " ");
    assert DashSpaces(s) == a + "-" + b;
    SlugConcat(a, "-");
    SlugConcat(a + "-", b);
  }

  /** The strings of `values` that are not empty, in order. */
  function DropEmpty(values: seq<string>): (r: seq<string>)
    ensures |r| <= |values|
    ensures forall i :: 0 <= i < |r| ==> r[i] != "" && r[i] in values
    ensures (forall i :: 0 <= i < |values| ==> values[i] != "") ==> r == values
    decreases |values|
  {
    if values == [] then []
    else if values[0] == "" then DropEmpty(values[1..])
    else [values[0]] + DropEmpty(values[1..])
  }

  /** One piece of `raw.split(",")` as the comprehension treats it: its
      stripped text, or nothing when that is empty. */
  function TagOf(piece: string): (tag: seq<string>)
    ensures |tag| <= 1
    ensures forall i :: 0 <= i < |tag| ==> tag[i] != "" && NoOuterSpace(tag[i])
    ensures ',' !in piece ==> forall i :: 0 <= i < |tag| ==> ',' !in tag[i]
  {
    var t := Strip(piece);
    StripShape(piece);
    assert ',' !in piece ==> ',' !in t by {
      if ',' in t {
        var k :| 0 <= k < |t| && t[k] == ',';
        assert piece[StripStart(piece) + k] == ',';
      }
    }
    if t == "" then [] else [t]
  }

  /** The list comprehension of `parse_tags`: every piece stripped, the empty
      ones dropped, order kept. */
  function KeepTags(pieces: seq<string>): (tags: seq<string>)
    ensures |tags| <= |pieces|
    ensures forall i :: 0 <= i < |tags| ==> tags[i] != "" && NoOuterSpace(tags[i])
    ensures (forall i :: 0 <= i < |pieces| ==> ',' !in pieces[i]) ==>
              forall i :: 0 <= i < |tags| ==> ',' !in tags[i]
    decreases |pieces|
  {
    if pieces == [] then []
    else
      TagOf(pieces[0]) + KeepTags(pieces[1..])
  }

  /** `parse_tags(raw)`. */
  function ParseTags(raw: Option<string>): (tags: seq<string>)
    ensures !Truthy(raw) ==> tags == []
    ensures forall i :: 0 <= i < |tags| ==> tags[i] != "" && ',' !in tags[i] && NoOuterSpace(tags[i])
  {
    if !Truthy(raw) then [] else KeepTags(Split(raw.value, ','))
  }

  lemma {:induction false} KeepTagsConcat(x: seq<string>, y: seq<string>)
    ensures KeepTags(x + y) == KeepTags(x) + KeepTags(y)
    decreases |x|
  {
    if x == [] {
      assert x + y == y;
    } else {
      assert (x + y)[0] == x[0];
      assert (x + y)[1..] == x[1..] + y;
      KeepTagsConcat(x[1..], y);
    }
  }

  /** The empty string is not special once split: `parse_tags` is the
      comprehension over `raw.split(",")` for every present string. */
  lemma ParseTagsPresent(s: string)
    ensures ParseTags(Some(s)) == KeepTags(Split(s, ','))
  {
    if s == "" {
      assert Split(s, ',') == [""];
      assert Strip("") == "";
      assert KeepTags([""]) == [];
    }
  }

  /** Tags of two comma-separated halves are the tags of each half, in order. */
  lemma ParseTagsConcat(a: string, b: string)
    ensures ParseTags(Some(a + "," + b)) == ParseTags(Some(a)) + ParseTags(Some(b))
  {
    SplitConcat(a, b, ',');
    KeepTagsConcat(Split(a, ','), Split(b, ','));
    ParseTagsPresent(a);
    ParseTagsPresent(b);
  }

  /** A single piece yields its stripped text, or nothing when that is empty. */
  lemma ParseTagsSingle(s: string)
    requires ',' !in s
    ensures ParseTags(Some(s)) == if Strip(s) == "" then [] else [Strip(s)]
  {
    SplitNoSep(s, ',');
    ParseTagsPresent(s);
  }

  /** Dropping empty values works value by value: on a concatenation it is
      the kept values of each part, in order. */
  lemma {:induction false} DropEmptyConcat(a: seq<string>, b: seq<string>)
    ensures DropEmpty(a + b) == DropEmpty(a) + DropEmpty(b)
    decreases |a|
  {
    if a == [] {
      assert a + b == b;
    } else {
      assert (a + b)[0] == a[0];
      assert (a + b)[1..] == a[1..] + b;
      DropEmptyConcat(a[1..], b);
    }
  }

  /** One value is kept exactly when it is not empty. */
  lemma DropEmptyOne(v: string)
    ensures DropEmpty([v]) == if v == "" then [] else [v]
  {
    assert [v][1..] == [];
  }

  /** `ensure_filter_in(values)`: the non-empty values joined by commas. */
  function EnsureFilterIn(values: seq<string>): (r: string)
    ensures r == "" <==> forall i :: 0 <= i < |values| ==> values[i] == ""
  {
    var cleaned := DropEmpty(values);
    JoinNonEmpty(cleaned);
    DropEmptyNil(values);
    Join(cleaned, ',')
  }

  lemma {:induction false} DropEmptyNil(values: seq<string>)
    ensures DropEmpty(values) == [] <==> forall i :: 0 <= i < |values| ==> values[i] == ""
    decreases |values|
  {
    if values != [] {
      DropEmptyNil(values[1..]);
      assert forall i :: 1 <= i < |values| ==> values[i] == values[1..][i - 1];
    }
  }

  lemma {:induction false} JoinNonEmpty(parts: seq<string>)
    requires forall i :: 0 <= i < |parts| ==> parts[i] != ""
    ensures Join(parts, ',') == "" <==> parts == []
  {
    if |parts| > 1 {
      assert |Join(parts, ',')| >= |parts[0]|;
    }
  }

  /** The joined filter value splits back into exactly the non-empty values,
      provided none of them holds a comma. */
  lemma FilterSplitsBack(values: seq<string>)
    requires forall i :: 0 <= i < |values| ==> ',' !in values[i]
    requires DropEmpty(values) != []
    ensures Split(EnsureFilterIn(values), ',') == DropEmpty(values)
  {
    SplitJoin(DropEmpty(values), ',');
  }

  /** `ensure_filter_in` and `parse_tags` are inverse on well-formed tag lists. */
  lemma TagsRoundTrip(tags: seq<string>)
    requires forall i :: 0 <= i < |tags| ==> tags[i] != "" && ',' !in tags[i] && NoOuterSpace(tags[i])
    ensures ParseTags(Some(EnsureFilterIn(tags))) == tags
  {
    if tags != [] {
      SplitJoin(tags, ',');
      KeepTagsOfTags(tags);
    }
  }

  lemma {:induction false} KeepTagsOfTags(tags: seq<string>)
    requires forall i :: 0 <= i < |tags| ==> tags[i] != "" && NoOuterSpace(tags[i])
    ensures KeepTags(tags) == tags
    decreases |tags|
  {
    if tags != [] {
      var rest := tags[1..];
      assert forall i :: 0 <= i < |rest| ==> rest[i] == tags[i + 1];
      KeepTagsOfTags(rest);
      StripOfStripped(tags[0]);
      assert TagOf(tags[0]) == [tags[0]];
      Recompose(tags);
    }
  }

  lemma Recompose<T>(s: seq<T>)
    requires s != []
    ensures [s[0]] + s[1..] == s
  {
  }

  /** `get_client_ip(request)`: the first hop of a non-empty X-Forwarded-For,
      stripped; otherwise the peer host, if any. */
  function ClientIp(r: Request): (ip: Option<string>)
    ensures Truthy(Header(r, "x-forwarded-for")) ==>
              ip.Some? && ',' !in ip.value && NoOuterSpace(ip.value)
    ensures !Truthy(Header(r, "x-forwarded-for")) ==> ip == r.client
  {
    var forwarded := Header(r, "x-forwarded-for");
    if Truthy(forwarded) then
      var first := Split(forwarded.value, ',')[0];
      StripShape(first);
      Some(Strip(first))
    else r.client
  }

  /** A single-address X-Forwarded-For gives that address, stripped. */
  lemma ClientIpSingleHop(r: Request, hop: string)
    requires Header(r, "x-forwarded-for") == Some(hop)
    requires hop != "" && ',' !in hop
    ensures ClientIp(r) == Some(Strip(hop))
  {
    SplitNoSep(hop, ',');
  }

  /** With a proxy chain `first, rest`, the address is the first entry stripped. */
  lemma ClientIpFirstHop(r: Request, first: string, rest: string)
    requires Header(r, "x-forwarded-for") == Some(first + "," + rest)
    requires ',' !in first
    ensures ClientIp(r) == Some(Strip(first))
  {
    SplitConcat(first, rest, ',');
    SplitNoSep(first, ',');
  }
}
