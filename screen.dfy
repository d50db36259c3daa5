/**
 * The screen buffer containers of the interactive reader: a line of characters with a
 * colour per character, the screen contents as a growable list of lines, and the sorted
 * cache of escape sequences already detected in prompts.
 */
module Screen {
  import opened Wrappers
  import opened WideString

  /** A highlighting specification; its structure does not matter here. */
  type Color

  /** The characters of a C string: those before its first NUL. */
  function CStringOf(txt: seq<char>): (r: seq<char>)
    requires '\0' in txt
    ensures |r| < |txt| && txt[..|r|] == r && txt[|r|] == '\0'
    ensures '\0' !in r
  {
    if txt[0] == '\0' then [] else [txt[0]] + CStringOf(txt[1..])
  }

  /** The C string of `txt` ends at whichever NUL has no NUL before it. */
  lemma {:induction false} CStringOfFirstNul(txt: seq<char>, n: nat)
    requires n < |txt| && txt[n] == '\0'
    requires forall j :: 0 <= j < n ==> txt[j] != '\0'
    ensures CStringOf(txt) == txt[..n]
  {
    if n > 0 {
      assert txt[1..][n - 1] == txt[n];
      CStringOfFirstNul(txt[1..], n - 1);
      assert txt[..n] == [txt[0]] + txt[1..][..n - 1];
    }
  }

  // ---------------------------------------------------------------------------
  // One line of the screen
  // ---------------------------------------------------------------------------

  class Line {
    var text: seq<char>
    var colors: seq<Color>
    var isSoftWrapped: bool
    var indentation: nat

    /** Every character has exactly one colour. */
    ghost predicate Valid()
      reads this
    {
      |text| == |colors|
    }

    /** An empty line that is not soft-wrapped and not indented. */
    ghost predicate IsDefault()
      reads this
    {
      text == [] && colors == [] && !isSoftWrapped && indentation == 0
    }

    /** A copy of `other`, field by field. */
    ghost predicate SameAs(other: Line)
      reads this, other
    {
      text == other.text && colors == other.colors
      && isSoftWrapped == other.isSoftWrapped && indentation == other.indentation
    }

    constructor ()
      ensures Valid() && IsDefault()
    {
      text, colors := [], [];
      isSoftWrapped, indentation := false, 0;
    }

    constructor Copy(other: Line)
      requires other.Valid()
      ensures Valid() && SameAs(other)
    {
      text, colors := other.text, other.colors;
      isSoftWrapped, indentation := other.isSoftWrapped, other.indentation;
    }

    /** Empties the text and its colours; the wrap flag and indentation stay. */
    method Clear()
      modifies this
      ensures Valid() && text == [] && colors == []
      ensures isSoftWrapped == old(isSoftWrapped) && indentation == old(indentation)
    {
      text, colors := [], [];
    }

    method Append(c: char, color: Color)
      requires Valid()
      modifies this
      ensures Valid()
      ensures text == old(text) + [c] && colors == old(colors) + [color]
      ensures isSoftWrapped == old(isSoftWrapped) && indentation == old(indentation)
    {
      text := text + [c];
      colors := colors + [color];
    }

    /** Appends the characters of the C string `txt`, each with colour `color`. */
    method AppendString(txt: seq<char>, color: Color)
      requires Valid() && '\0' in txt
      modifies this
      ensures Valid()
      ensures text == old(text) + CStringOf(txt)
      ensures |colors| == |old(colors)| + |CStringOf(txt)| && colors[..|old(colors)|] == old(colors)
      ensures forall k :: |old(colors)| <= k < |colors| ==> colors[k] == color
      ensures isSoftWrapped == old(isSoftWrapped) && indentation == old(indentation)
    {
      ghost var s := CStringOf(txt);
      var i := 0;
      while txt[i] != '\0'
        invariant 0 <= i <= |s|
        invariant forall j :: 0 <= j < i ==> txt[j] != '\0'
        invariant Valid()
        invariant text == old(text) + txt[..i]
        invariant |colors| == |old(colors)| + i && colors[..|old(colors)|] == old(colors)
        invariant forall k :: |old(colors)| <= k < |colors| ==> colors[k] == color
        invariant isSoftWrapped == old(isSoftWrapped) && indentation == old(indentation)
        decreases |s| - i
      {
        assert txt[..i + 1] == txt[..i] + [txt[i]];
        text := text + [txt[i]];
        colors := colors + [color];
        i := i + 1;
      }
      CStringOfFirstNul(txt, i);
    }

    /** The number of characters on the line. */
    function Size(): (n: nat)
      reads this
      requires Valid()
      ensures n == |text| && n == |colors|
    {
      |text|
    }

    /** The character at `idx`; none (an out-of-range error) past the end. */
    function CharAt(idx: nat): (r: Option<char>)
      reads this
      ensures r.Some? <==> idx < |text|
      ensures r.Some? ==> r.value == text[idx]
    {
      if idx < |text| then Some(text[idx]) else None
    }

    /** The colour at `idx`; none (an out-of-range error) past the end. */
    function ColorAt(idx: nat): (r: Option<Color>)
      reads this
      ensures r.Some? <==> idx < |colors|
      ensures r.Some? ==> r.value == colors[idx]
    {
      if idx < |colors| then Some(colors[idx]) else None
    }

    /** Appends the characters and colours of `other`. */
    method AppendLine(other: Line)
      requires Valid() && other.Valid()
      modifies this
      ensures Valid()
      ensures text == old(text) + old(other.text) && colors == old(colors) + old(other.colors)
      ensures isSoftWrapped == old(isSoftWrapped) && indentation == old(indentation)
    {
      text, colors := text + other.text, colors + other.colors;
    }

    /** The text of the line as a string. */
    function ToString(): (s: string)
      reads this
      ensures |s| == |text|
      ensures forall i :: 0 <= i < |s| ==> CharAt(i) == Some(s[i])
    {
      text
    }
  }

  // ---------------------------------------------------------------------------
  // The screen contents
  // ---------------------------------------------------------------------------

  datatype Cursor = Cursor(x: int, y: int)

  class ScreenData {
    var lineDatas: seq<Line>
    var cursor: Cursor

    /** Every line is well formed, and no two slots share a line (lines are held by value). */
    ghost predicate Valid()
      reads this, lineDatas
    {
      && (forall i :: 0 <= i < |lineDatas| ==> lineDatas[i].Valid())
      && (forall i, j :: 0 <= i < j < |lineDatas| ==> lineDatas[i] != lineDatas[j])
    }

    constructor ()
      ensures Valid() && lineDatas == [] && cursor == Cursor(0, 0)
    {
      lineDatas, cursor := [], Cursor(0, 0);
    }

    /**
     * Truncates or extends the list to `size` lines; lines that stay are the same lines,
     * lines that are added are new default lines.
     */
    method Resize(size: nat)
      requires Valid()
      modifies this
      ensures Valid() && cursor == old(cursor)
      ensures |lineDatas| == size
      ensures forall i :: 0 <= i < size && i < |old(lineDatas)| ==> lineDatas[i] == old(lineDatas[i])
      ensures forall i :: |old(lineDatas)| <= i < size ==> fresh(lineDatas[i]) && lineDatas[i].IsDefault()
    {
      if size <= |lineDatas| {
        lineDatas := lineDatas[..size];
      } else {
        while |lineDatas| < size
          invariant |old(lineDatas)| <= |lineDatas| <= size
          invariant lineDatas[..|old(lineDatas)|] == old(lineDatas)
          invariant forall i :: |old(lineDatas)| <= i < |lineDatas| ==> fresh(lineDatas[i]) && lineDatas[i].IsDefault()
          invariant Valid() && cursor == old(cursor)
          decreases size - |lineDatas|
        {
          var l := new Line();
          lineDatas := lineDatas + [l];
        }
      }
    }

    /** Adds a default line at the end and returns it. */
    method AddLine() returns (l: Line)
      requires Valid()
      modifies this
      ensures Valid() && cursor == old(cursor)
      ensures lineDatas == old(lineDatas) + [l]
      ensures fresh(l) && l.IsDefault()
    {
      Resize(|lineDatas| + 1);
      l := lineDatas[|lineDatas| - 1];
    }

    /**
     * Returns line `idx`, first extending the list with default lines when it is that short.
     */
    method CreateLine(idx: nat) returns (l: Line)
      requires Valid()
      modifies this
      ensures Valid() && cursor == old(cursor)
      ensures |lineDatas| == if idx < |old(lineDatas)| then |old(lineDatas)| else idx + 1
      ensures forall i :: 0 <= i < |old(lineDatas)| ==> lineDatas[i] == old(lineDatas[i])
      ensures forall i :: |old(lineDatas)| <= i < |lineDatas| ==> fresh(lineDatas[i]) && lineDatas[i].IsDefault()
      ensures l == lineDatas[idx]
    {
      if idx >= |lineDatas| {
        Resize(idx + 1);
      }
      l := lineDatas[idx];
    }

    /** Inserts a default line at `idx`; the lines from `idx` on move down by one. */
    method InsertLineAtIndex(idx: nat) returns (l: Line)
      requires Valid() && idx <= |lineDatas|
      modifies this
      ensures Valid() && cursor == old(cursor)
      ensures lineDatas == old(lineDatas)[..idx] + [l] + old(lineDatas)[idx..]
      ensures fresh(l) && l.IsDefault()
    {
      l := new Line();
      lineDatas := lineDatas[..idx] + [l] + lineDatas[idx..];
    }

    /** Line `idx`; none (an out-of-range error) past the last line. */
    function LineAt(idx: nat): (r: Option<Line>)
      reads this
      ensures r.Some? <==> idx < |lineDatas|
      ensures r.Some? ==> r.value == lineDatas[idx]
    {
      if idx < |lineDatas| then Some(lineDatas[idx]) else None
    }

    function LineCount(): (n: nat)
      reads this
      ensures n == |lineDatas|
    {
      |lineDatas|
    }

    /** Appends copies of the lines of `d`. */
    method AppendLines(d: ScreenData)
      requires Valid() && d.Valid() && d != this
      modifies this
      ensures Valid() && cursor == old(cursor)
      ensures |lineDatas| == |old(lineDatas)| + |d.lineDatas|
      ensures lineDatas[..|old(lineDatas)|] == old(lineDatas)
      ensures forall i :: 0 <= i < |d.lineDatas| ==>
        fresh(lineDatas[|old(lineDatas)| + i]) && lineDatas[|old(lineDatas)| + i].SameAs(d.lineDatas[i])
    {
      ghost var copies: seq<Line> := [];
      for j := 0 to |d.lineDatas|
        invariant |copies| == j
        invariant lineDatas == old(lineDatas) + copies
        invariant forall i :: 0 <= i < j ==> fresh(copies[i])
        invariant forall i :: 0 <= i < j ==>
          && copies[i].text == d.lineDatas[i].text && copies[i].colors == d.lineDatas[i].colors
          && copies[i].isSoftWrapped == d.lineDatas[i].isSoftWrapped
          && copies[i].indentation == d.lineDatas[i].indentation
        invariant Valid() && cursor == old(cursor)
      {
        var l := new Line.Copy(d.lineDatas[j]);
        lineDatas := lineDatas + [l];
        copies := copies + [l];
      }
    }

    function Empty(): (b: bool)
      reads this
      ensures b <==> LineCount() == 0
    {
      |lineDatas| == 0
    }
  }

  // ---------------------------------------------------------------------------
  // The escape-sequence cache
  // ---------------------------------------------------------------------------

  /** Strictly increasing, hence free of duplicates. */
  ghost predicate StrictlySorted(s: seq<string>) {
    forall i, j :: 0 <= i < j < |s| ==> Less(s[i], s[j])
  }

  /** No entry is a prefix of another. */
  ghost predicate PrefixFree(s: seq<string>) {
    forall i, j :: 0 <= i < |s| && 0 <= j < |s| && i != j ==> !IsPrefix(s[i], s[j])
  }

  /** The first position whose entry sorts after `key`, found by binary search. */
  method UpperBound(s: seq<string>, key: string) returns (k: nat)
    requires StrictlySorted(s)
    ensures k <= |s|
    ensures forall i :: 0 <= i < k ==> !Less(key, s[i])
    ensures forall i :: k <= i < |s| ==> Less(key, s[i])
  {
    var lo, hi := 0, |s|;
    while lo < hi
      invariant 0 <= lo <= hi <= |s|
      invariant forall i :: 0 <= i < lo ==> !Less(key, s[i])
      invariant forall i :: hi <= i < |s| ==> Less(key, s[i])
    {
      var mid := (lo + hi) / 2;
      if Less(key, s[mid]) {
        forall i | mid < i < hi ensures Less(key, s[i]) {
          LessTransitive(key, s[mid], s[i]);
        }
        hi := mid;
      } else {
        forall i | lo <= i < mid ensures !Less(key, s[i]) {
          if Less(key, s[i]) {
            LessTransitive(key, s[i], s[mid]);
          }
        }
        lo := mid + 1;
      }
    }
    k := lo;
  }

  class LayoutCache {
    /** Escape sequences already detected, in lexicographic order. */
    var escCache: seq<string>

    ghost predicate Valid()
      reads this
    {
      StrictlySorted(escCache)
    }

    constructor ()
      ensures Valid() && escCache == []
    {
      escCache := [];
    }

    /** The number of cached escape sequences. */
    function EscCacheSize(): (n: nat)
      reads this
      ensures n == |escCache|
    {
      |escCache|
    }

    /** Inserts `str` at its sorted position unless it is already cached. */
    method AddEscapeCode(str: string)
      requires Valid()
      modifies this
      ensures Valid()
      ensures str in escCache
      ensures str in old(escCache) ==> escCache == old(escCache)
      ensures str !in old(escCache) ==> |escCache| == |old(escCache)| + 1
      ensures forall x :: x in escCache <==> x in old(escCache) || x == str
    {
      var k := UpperBound(escCache, str);
      if k == 0 || escCache[k - 1] != str {
        var old_ := escCache;
        forall i | 0 <= i < k ensures Less(old_[i], str) {
          LessTotal(old_[i], str);
          if i < k - 1 {
            assert Less(old_[i], old_[k - 1]);
          }
        }
        assert forall m :: 0 <= m < |old_| ==> old_[m] != str;
        escCache := old_[..k] + [str] + old_[k..];
        assert escCache[k] == str;
        forall i, j | 0 <= i < j < |escCache| ensures Less(escCache[i], escCache[j]) {
          if j < k {
            assert escCache[i] == old_[i] && escCache[j] == old_[j];
          } else if j == k {
            assert escCache[i] == old_[i];
          } else if i == k {
            assert escCache[j] == old_[j - 1];
          } else if i < k {
            assert escCache[i] == old_[i] && escCache[j] == old_[j - 1];
          } else {
            assert escCache[i] == old_[i - 1] && escCache[j] == old_[j - 1];
          }
        }
        assert forall x :: x in escCache <==> x in old_ || x == str by {
          assert old_ == old_[..k] + old_[k..];
        }
      }
    }

    /**
     * The length of the cached escape sequence that begins `entry`, or 0. Only the
     * greatest cached sequence not after `entry` is tried, which finds the match when the
     * cache is prefix-free.
     */
    method FindEscapeCode(entry: string) returns (n: nat)
      requires Valid()
      ensures n == 0 || exists i :: 0 <= i < |escCache| && IsPrefix(escCache[i], entry) && n == |escCache[i]|
      ensures PrefixFree(escCache) ==>
        forall i :: 0 <= i < |escCache| && IsPrefix(escCache[i], entry) ==> n == |escCache[i]|
    {
      var k := UpperBound(escCache, entry);
      n := 0;
      if k != 0 {
        var candidate := escCache[k - 1];
        if IsPrefix(candidate, entry) {
          n := |candidate|;
        }
      }
      if PrefixFree(escCache) {
        forall i | 0 <= i < |escCache| && IsPrefix(escCache[i], entry) ensures n == |escCache[i]| {
          PrefixNotGreater(escCache[i], entry);
          if i < k - 1 {
            BetweenPrefixAndString(escCache[i], escCache[k - 1], entry);
          }
        }
      }
    }

    /** Empties the escape-sequence cache. */
    method Clear()
      modifies this
      ensures Valid() && escCache == []
    {
      escCache := [];
    }
  }
}
