/** Helpers of the application library: name initials and the defaulting rule
    for reading persisted values. */
module Utils {
  import opened Wrappers
  import opened Text

  /** `parts.map(part => part[0]).join('')`: the first character of every
      piece; an empty piece yields `undefined`, which `join` renders as nothing. */
  function Heads(parts: seq<string>): string
    decreases |parts|
  {
    if parts == [] then ""
    else (if parts[0] == "" then "" else [parts[0][0]]) + Heads(parts[1..])
  }

  lemma {:induction false} HeadsAppend(a: seq<string>, b: seq<string>)
    ensures Heads(a + b) == Heads(a) + Heads(b)
    decreases |a|
  {
    if a == [] {
      assert a + b == b;
    } else {
      assert (a + b)[1..] == a[1..] + b;
      HeadsAppend(a[1..], b);
    }
  }

  /** Reference definition of the initials: the characters of `s` that are not
      spaces and follow a space (or, when `afterSpace` holds, the start). */
  function WordStarts(s: string, afterSpace: bool): string
    decreases |s|
  {
    if s == [] then ""
    else (if afterSpace && s[0] != ' ' then [s[0]] else "") + WordStarts(s[1..], s[0] == ' ')
  }

  /** The heads of the space-separated pieces are exactly the word starts. */
  lemma {:induction false} HeadsOfSplit(s: string)
    ensures Heads(Split(s, ' ')) == WordStarts(s, true)
    ensures Heads(Split(s, ' ')[1..]) == WordStarts(s, false)
    decreases |s|
  {
    if s == [] {
    } else if s[0] == ' ' {
      HeadsOfSplit(s[1..]);
      var rest := Split(s[1..], ' ');
      assert Split(s, ' ') == [""] + rest;
      HeadsAppend([""], rest);
      assert Split(s, ' ')[1..] == rest;
    } else {
      HeadsOfSplit(s[1..]);
      var rest := Split(s[1..], ' ');
      var parts := Split(s, ' ');
      assert parts == [[s[0]] + rest[0]] + rest[1..];
      HeadsAppend([[s[0]] + rest[0]], rest[1..]);
      assert parts[1..] == rest[1..];
      assert Heads(rest) == Heads([rest[0]] + rest[1..]) by {
        assert rest == [rest[0]] + rest[1..];
      }
      HeadsAppend([rest[0]], rest[1..]);
    }
  }

  /** `s.slice(0, n)`. */
  function Take(s: string, n: nat): (r: string)
    ensures |r| <= n && |r| <= |s| && r == s[..|r|]
    ensures |s| >= n ==> |r| == n
  {
    if |s| <= n then s else s[..n]
  }

  /** The expression chain `name.split(' ').map(part => part[0]).join('')
      .slice(0, 2).toUpperCase()` that both `getInitials` and the session's
      `initials` use. */
  function Abbreviate(name: string): (r: string)
    ensures |r| <= 2
    ensures r == Upper(Take(WordStarts(name, true), 2))
  {
    HeadsOfSplit(name);
    Upper(Take(Heads(Split(name, ' ')), 2))
  }

  /** `getInitials`: `'HL'` for the empty name, otherwise the upper-cased first
      letters of the first two words. */
  function GetInitials(name: string): (r: string)
    ensures name == "" ==> r == "HL"
    ensures |r| <= 2
    ensures name != "" ==> r == Upper(Take(WordStarts(name, true), 2))
  {
    if name == "" then "HL" else Abbreviate(name)
  }

  /** Leading and repeated spaces contribute nothing: " ab  cd" has initials "AC". */
  lemma InitialsIgnoreExtraSpaces()
    ensures GetInitials(" ab  cd") == "AC"
  {
    assert WordStarts(" ab  cd", true) == "ac";
    assert Upper("ac") == "AC";
  }

  /** Only the first two words count, and a blank name has no initials. */
  lemma InitialsOfFirstTwoWords()
    ensures GetInitials("ab cd ef") == "AC"
    ensures GetInitials(" ") == ""
  {
    assert WordStarts("ab cd ef", true) == "ace";
    assert Take("ace", 2) == "ac";
    assert Upper("ac") == "AC";
    assert WordStarts(" ", true) == "";
  }

  /** `getLocalStorageItem(key, default)`: `raw` is what storage holds for the
      key (absent when missing), `parse` stands for `JSON.parse` (absent when it
      throws). A missing or empty item, or one that does not parse, yields the
      default; otherwise the parsed value. */
  function GetLocalStorageItem<T>(raw: Option<string>, parse: string -> Option<T>, default: T): (r: T)
    ensures raw.None? || raw == Some("") ==> r == default
    ensures raw.Some? && raw.value != "" && parse(raw.value).None? ==> r == default
    ensures raw.Some? && raw.value != "" && parse(raw.value).Some? ==> r == parse(raw.value).value
  {
    if raw.None? || raw.value == "" then default
    else parse(raw.value).GetOr(default)
  }

  /** What `setLocalStorageItem` writes is read back unchanged, whenever the
      serialised form is non-empty and parses back to the value. JSON
      parsing is abstract here, so that round trip is the hypothesis; the
      lemma only adds that the read takes the parsed branch, which is the
      third case of `GetLocalStorageItem`'s contract. */
  lemma StorageRoundTrip<T>(v: T, default: T, serialize: T -> string, parse: string -> Option<T>)
    requires serialize(v) != "" && parse(serialize(v)) == Some(v)
    ensures GetLocalStorageItem(Some(serialize(v)), parse, default) == v
  {
  }
}
