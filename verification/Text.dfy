/** The string operations the system leans on: trimming, splitting, fields and joining. */
module Text {

  /** White space as Unicode defines it. */
  predicate IsSpace(c: char)
  {
    var n := c as int;
    9 <= n <= 13 || n == 0x20 || n == 0x85 || n == 0xA0 || n == 0x1680 || 0x2000 <= n <= 0x200A
    || n == 0x2028 || n == 0x2029 || n == 0x202F || n == 0x205F || n == 0x3000
  }

  predicate NoSpace(s: string) { forall i | 0 <= i < |s| :: !IsSpace(s[i]) }

  function TrimLeft(s: string): (t: string)
    ensures |t| <= |s|
  {
    if s != "" && IsSpace(s[0]) then TrimLeft(s[1..]) else s
  }

  function TrimRight(s: string): (t: string)
    ensures |t| <= |s|
  {
    if s != "" && IsSpace(s[|s| - 1]) then TrimRight(s[..|s| - 1]) else s
  }

  function TrimSpace(s: string): (t: string) { TrimRight(TrimLeft(s)) }

  /** Lower case for every character whose lower case is an ASCII letter; others stay as they are. */
  function LowerChar(c: char): (r: char)
  {
    if 'A' <= c <= 'Z' then (c as int + 32) as char
    else if c as int == 0x130 then 'i'
    else if c as int == 0x212A then 'k'
    else c
  }

  function Lower(s: string): (r: string)
  {
    if s == "" then "" else [LowerChar(s[0])] + Lower(s[1..])
  }

  lemma {:induction false} LowerOfWord(s: string)
    requires forall i | 0 <= i < |s| :: 'a' <= s[i] <= 'z'
    ensures Lower(s) == s
  {
    if s != "" {
      LowerOfWord(s[1..]);
      assert s == [s[0]] + s[1..];
    }
  }

  /* ---------- Splitting at a separator ---------- */

  /** Where `c` first occurs, or the length of the text. */
  function IndexOf(s: string, c: char): (i: nat)
    ensures i <= |s|
  {
    if s == "" || s[0] == c then 0 else 1 + IndexOf(s[1..], c)
  }

  function Split(s: string, separator: char): (parts: seq<string>)
    ensures parts != []
    decreases |s|
  {
    var i := IndexOf(s, separator);
    if i == |s| then [s] else [s[..i]] + Split(s[i + 1..], separator)
  }

  function Join(parts: seq<string>, separator: char): (s: string)
  {
    if parts == [] then ""
    else if |parts| == 1 then parts[0]
    else parts[0] + [separator] + Join(parts[1..], separator)
  }

  lemma {:induction false} IndexAfterPrefix(prefix: string, c: char, rest: string)
    requires c !in prefix
    ensures IndexOf(prefix + [c] + rest, c) == |prefix|
    ensures IndexOf(prefix, c) == |prefix|
  {
    if prefix != "" {
      IndexAfterPrefix(prefix[1..], c, rest);
      assert (prefix + [c] + rest)[1..] == prefix[1..] + [c] + rest;
    }
  }

  lemma SplitCons(first: string, separator: char, rest: string)
    requires separator !in first
    ensures Split(first + [separator] + rest, separator) == [first] + Split(rest, separator)
  {
    var s := first + [separator] + rest;
    IndexAfterPrefix(first, separator, rest);
    assert s[..|first|] == first && s[|first| + 1..] == rest;
  }

  lemma {:induction false} IndexIsFirst(s: string, c: char)
    ensures c !in s[..IndexOf(s, c)]
    ensures IndexOf(s, c) < |s| ==> s[IndexOf(s, c)] == c
  {
    if s != "" && s[0] != c {
      IndexIsFirst(s[1..], c);
      assert s[..IndexOf(s, c)] == [s[0]] + s[1..][..IndexOf(s[1..], c)];
    }
  }

  lemma JoinCons(first: string, rest: seq<string>, separator: char)
    requires rest != []
    ensures Join([first] + rest, separator) == first + [separator] + Join(rest, separator)
  {
    assert ([first] + rest)[1..] == rest;
  }

  /** Joining undoes splitting. */
  lemma {:induction false} JoinSplit(s: string, separator: char)
    ensures Join(Split(s, separator), separator) == s
    decreases |s|
  {
    var i := IndexOf(s, separator);
    if i < |s| {
      IndexIsFirst(s, separator);
      JoinSplit(s[i + 1..], separator);
      JoinCons(s[..i], Split(s[i + 1..], separator), separator);
      assert s == s[..i] + [s[i]] + s[i + 1..];
    }
  }

  lemma {:induction false} JoinConcat(a: seq<string>, b: seq<string>, separator: char)
    requires a != [] && b != []
    ensures Join(a + b, separator) == Join(a, separator) + [separator] + Join(b, separator)
  {
    assert (a + b)[1..] == a[1..] + b;
    if |a| > 1 {
      JoinConcat(a[1..], b, separator);
    } else {
      assert a[1..] + b == b;
    }
  }

  lemma {:induction false} SplitConcat(a: string, separator: char, b: string)
    ensures Split(a + [separator] + b, separator) == Split(a, separator) + Split(b, separator)
    decreases |a|
  {
    var i := IndexOf(a, separator);
    IndexIsFirst(a, separator);
    if i == |a| {
      assert a[..i] == a;
      SplitCons(a, separator, b);
    } else {
      var first, rest := a[..i], a[i + 1..];
      assert a == first + [separator] + rest;
      assert a + [separator] + b == first + [separator] + (rest + [separator] + b);
      SplitCons(first, separator, rest + [separator] + b);
      SplitConcat(rest, separator, b);
    }
  }

  lemma SplitSingle(s: string, separator: char)
    requires separator !in s
    ensures Split(s, separator) == [s]
  {
    IndexAfterPrefix(s, separator, "");
  }

  lemma SplitOfThree(a: string, b: string, c: string, separator: char)
    requires separator !in a && separator !in b && separator !in c
    ensures Split(a + [separator] + b + [separator] + c, separator) == [a, b, c]
  {
    SplitConcat(a + [separator] + b, separator, c);
    SplitConcat(a, separator, b);
    SplitSingle(a, separator);
    SplitSingle(b, separator);
    SplitSingle(c, separator);
  }

  lemma {:induction false} SplitPartsAreClean(s: string, separator: char)
    ensures forall part | part in Split(s, separator) :: separator !in part
  {
    var i := IndexOf(s, separator);
    IndexIsFirst(s, separator);
    assert s[..i] == s || i < |s|;
    if i < |s| {
      SplitPartsAreClean(s[i + 1..], separator);
    }
  }

  lemma JoinOfThree(parts: seq<string>, separator: char)
    requires |parts| == 3
    ensures Join(parts, separator) == parts[0] + [separator] + parts[1] + [separator] + parts[2]
  {
    var rest := parts[1..];
    assert |rest| == 2 && rest[0] == parts[1] && rest[1..] == [parts[2]];
    assert Join([parts[2]], separator) == parts[2];
    Associates(parts[0] + [separator], parts[1] + [separator], parts[2]);
  }

  lemma Associates(a: string, b: string, c: string)
    ensures a + (b + c) == a + b + c
  {
  }

  /** A text splits into three parts exactly when it is those parts, free of the separator, put together. */
  lemma SplitsInThreeExactly(s: string, a: string, b: string, c: string, separator: char)
    ensures Split(s, separator) == [a, b, c] <==>
      separator !in a && separator !in b && separator !in c && s == a + [separator] + b + [separator] + c
  {
    if separator !in a && separator !in b && separator !in c {
      SplitOfThree(a, b, c, separator);
    }
    if Split(s, separator) == [a, b, c] {
      SplitPartsAreClean(s, separator);
      JoinSplit(s, separator);
      JoinOfThree([a, b, c], separator);
      assert a in [a, b, c] && b in [a, b, c] && c in [a, b, c];
    }
  }

  lemma SplitAfterThree(a: string, b: string, c: string, separator: char, rest: string)
    requires separator !in a && separator !in b && separator !in c
    ensures Split(a + [separator] + b + [separator] + c + [separator] + rest, separator) == [a, b, c] + Split(rest, separator)
  {
    SplitConcat(a + [separator] + b + [separator] + c, separator, rest);
    SplitOfThree(a, b, c, separator);
  }

  /* ---------- Fields between white space ---------- */

  predicate StartsWord(s: string) { s != "" && !IsSpace(s[0]) }

  /** The maximal runs of non-space characters. */
  function Fields(s: string): (words: seq<string>)
    ensures StartsWord(s) ==> words != []
  {
    if s == "" then []
    else
      var rest := Fields(s[1..]);
      if IsSpace(s[0]) then rest
      else if StartsWord(s[1..]) then [[s[0]] + rest[0]] + rest[1..]
      else [[s[0]]] + rest
  }

  lemma {:induction false} FieldsAreWords(s: string)
    ensures forall word | word in Fields(s) :: word != "" && NoSpace(word)
  {
    if s != "" {
      FieldsAreWords(s[1..]);
      var rest := Fields(s[1..]);
      assert StartsWord(s[1..]) ==> rest[0] in rest;
      assert StartsWord(s[1..]) ==> forall word | word in rest[1..] :: word in rest;
    }
  }

  lemma {:induction false} FieldsOfWord(word: string)
    requires NoSpace(word) && word != ""
    ensures Fields(word) == [word]
  {
    assert word == [word[0]] + word[1..];
    if |word| > 1 {
      FieldsOfWord(word[1..]);
      assert !IsSpace(word[0]) && StartsWord(word[1..]);
    } else {
      assert word[1..] == "" && [word[0]] == word;
    }
  }

  /** Fields of a text and of what follows it after a space are found separately. */
  lemma {:induction false} FieldsConcat(a: string, t: string)
    requires !StartsWord(t)
    ensures Fields(a + t) == Fields(a) + Fields(t)
  {
    if a == "" {
      assert a + t == t;
    } else {
      assert (a + t)[1..] == a[1..] + t;
      FieldsConcat(a[1..], t);
      assert StartsWord(a[1..] + t) == StartsWord(a[1..]);
    }
  }

  lemma {:induction false} FieldsOfSpaces(s: string)
    requires forall i | 0 <= i < |s| :: IsSpace(s[i])
    ensures Fields(s) == []
  {
    if s != "" {
      FieldsOfSpaces(s[1..]);
    }
  }

  /** A text whose trimmed form has no space is one field, or none when it is blank. */
  lemma {:induction false} FieldsOfPadded(s: string)
    requires NoSpace(TrimSpace(s))
    ensures Fields(s) == if TrimSpace(s) == "" then [] else [TrimSpace(s)]
  {
    if s != "" && IsSpace(s[0]) {
      FieldsOfPadded(s[1..]);
    } else if s != "" {
      TrimRightDropsSpaces(s);
      var word := TrimSpace(s);
      var rest := s[|word|..];
      FieldsConcat(word, rest);
      FieldsOfWord(word);
      FieldsOfSpaces(rest);
      assert s == word + rest;
    }
  }

  lemma {:induction false} TrimRightDropsSpaces(s: string)
    ensures TrimRight(s) <= s
    ensures forall i | |TrimRight(s)| <= i < |s| :: IsSpace(s[i])
    ensures StartsWord(s) ==> StartsWord(TrimRight(s))
    ensures TrimRight(TrimRight(s)) == TrimRight(s)
  {
    if s != "" && IsSpace(s[|s| - 1]) {
      TrimRightDropsSpaces(s[..|s| - 1]);
    }
  }

  lemma {:induction false} TrimLeftStartsWord(s: string)
    ensures TrimLeft(s) == "" || StartsWord(TrimLeft(s))
  {
    if s != "" && IsSpace(s[0]) {
      TrimLeftStartsWord(s[1..]);
    }
  }

  lemma TrimTwice(s: string)
    ensures TrimSpace(TrimSpace(s)) == TrimSpace(s)
  {
    TrimLeftStartsWord(s);
    TrimRightDropsSpaces(TrimLeft(s));
  }

  lemma {:induction false} TrimOfWord(s: string)
    requires NoSpace(s)
    ensures TrimSpace(s) == s
  {
  }

  lemma FieldsOfJoin(first: string, others: seq<string>)
    requires others != []
    ensures Fields(Join([first] + others, ' ')) == Fields(first) + Fields(Join(others, ' '))
  {
    var rest := Join(others, ' ');
    var t := " " + rest;
    FieldsConcat(first, t);
    assert t[1..] == rest;
    assert ([first] + others)[1..] == others;
    assert first + [' '] + rest == first + t;
  }

  /** Words joined by spaces come back as the same list of fields. */
  lemma {:induction false} FieldsOfJoinedWords(words: seq<string>)
    requires forall i | 0 <= i < |words| :: NoSpace(words[i]) && words[i] != ""
    ensures Fields(Join(words, ' ')) == words
  {
    if words != [] {
      FieldsOfWord(words[0]);
      if |words| > 1 {
        FieldsOfJoin(words[0], words[1..]);
        FieldsOfJoinedWords(words[1..]);
        assert words == [words[0]] + words[1..];
      }
    }
  }

  /** Every field of a joined list is one of its members, trimmed, if no member has an inner space. */
  lemma {:induction false} FieldsOfJoinedMembers(parts: seq<string>, word: string)
    requires forall i | 0 <= i < |parts| :: NoSpace(TrimSpace(parts[i]))
    requires word in Fields(Join(parts, ' '))
    ensures exists i | 0 <= i < |parts| :: TrimSpace(parts[i]) == word
  {
    if parts != [] {
      FieldsOfPadded(parts[0]);
      if |parts| > 1 {
        assert parts == [parts[0]] + parts[1..];
        FieldsOfJoin(parts[0], parts[1..]);
        if word != TrimSpace(parts[0]) {
          FieldsOfJoinedMembers(parts[1..], word);
          var j :| 0 <= j < |parts[1..]| && TrimSpace(parts[1..][j]) == word;
          assert TrimSpace(parts[j + 1]) == word;
        }
      }
    }
  }
}
