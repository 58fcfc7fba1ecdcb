/** Character searches of std::string and the shell's `trim` (cpp_shell.cpp:40-45). */
module Text {
  import opened Wrappers

  /** The characters `trim` strips: " \t\n\r". */
  const TrimChars: set<char> := {' ', '\t', '\n', '\r'}

  predicate AllIn(s: string, chars: set<char>) {
    forall k :: 0 <= k < |s| ==> s[k] in chars
  }

  predicate NoneIn(s: string, chars: set<char>) {
    forall k :: 0 <= k < |s| ==> s[k] !in chars
  }

  /** Concatenation is associative; stated once so loops can regroup their pieces. */
  lemma {:induction false} AppendAssociative<T>(a: seq<T>, b: seq<T>, c: seq<T>)
    ensures (a + b) + c == a + (b + c)
  {
  }

  /** std::string::find_first_not_of: the first index whose character is not in `chars`. */
  function FindFirstNotOf(s: string, chars: set<char>): (r: Option<nat>)
    ensures r.Some? ==> r.value < |s| && s[r.value] !in chars
    ensures r.Some? ==> forall k :: 0 <= k < r.value ==> s[k] in chars
    ensures r.None? <==> AllIn(s, chars)
    decreases |s|
  {
    if s == [] then None
    else if s[0] !in chars then Some(0)
    else match FindFirstNotOf(s[1..], chars)
      case None => None
      case Some(i) => Some(i + 1)
  }

  /** std::string::find_last_not_of: the last index whose character is not in `chars`. */
  function FindLastNotOf(s: string, chars: set<char>): (r: Option<nat>)
    ensures r.Some? ==> r.value < |s| && s[r.value] !in chars
    ensures r.Some? ==> forall k :: r.value < k < |s| ==> s[k] in chars
    ensures r.None? <==> AllIn(s, chars)
    decreases |s|
  {
    if s == [] then None
    else if s[|s| - 1] !in chars then Some(|s| - 1)
    else FindLastNotOf(s[..|s| - 1], chars)
  }

  /** std::string::find_last_of: the last index whose character is in `chars`. */
  function FindLastOf(s: string, chars: set<char>): (r: Option<nat>)
    ensures r.Some? ==> r.value < |s| && s[r.value] in chars
    ensures r.Some? ==> forall k :: r.value < k < |s| ==> s[k] !in chars
    ensures r.None? <==> NoneIn(s, chars)
    decreases |s|
  {
    if s == [] then None
    else if s[|s| - 1] in chars then Some(|s| - 1)
    else FindLastOf(s[..|s| - 1], chars)
  }

  /** `trim`: the substring between the first and the last character outside " \t\n\r",
      or "" when there is none. */
  function Trim(s: string): (r: string)
    ensures |r| <= |s|
    ensures r == [] <==> AllIn(s, TrimChars)
    ensures r != [] ==> r[0] !in TrimChars && r[|r| - 1] !in TrimChars
  {
    match FindFirstNotOf(s, TrimChars)
    case None => ""
    case Some(start) =>
      var end := FindLastNotOf(s, TrimChars).value;
      s[start..end + 1]
  }

  /** What `trim` keeps has no stripped character at either end. */
  predicate IsTrimmed(s: string) {
    s == [] || (s[0] !in TrimChars && s[|s| - 1] !in TrimChars)
  }

  /** `trim` removes a run of stripped characters from each end and nothing else. */
  lemma {:induction false} TrimSplit(s: string) returns (lead: string, trail: string)
    ensures s == lead + Trim(s) + trail
    ensures AllIn(lead, TrimChars) && AllIn(trail, TrimChars)
    ensures IsTrimmed(Trim(s))
  {
    if AllIn(s, TrimChars) {
      lead, trail := s, "";
      assert s == lead + [] + trail;
    } else {
      var start, end := TrimWindow(s);
      lead, trail := SplitAround(s, start, end, TrimChars);
    }
  }

  /** When `s` is not all stripped characters, `trim(s)` is the window between the
      first and the last character that is not. */
  lemma {:induction false} TrimWindow(s: string) returns (start: nat, end: nat)
    requires !AllIn(s, TrimChars)
    ensures start <= end < |s| && Trim(s) == s[start..end + 1]
    ensures forall k :: 0 <= k < start ==> s[k] in TrimChars
    ensures forall k :: end < k < |s| ==> s[k] in TrimChars
  {
    start := FindFirstNotOf(s, TrimChars).value;
    end := FindLastNotOf(s, TrimChars).value;
  }

  /** Cutting `s` around positions `start..end` whose outside lies in `chars`. */
  lemma {:induction false} SplitAround(s: string, start: nat, end: nat, chars: set<char>)
    returns (lead: string, trail: string)
    requires start <= end < |s|
    requires forall k :: 0 <= k < start ==> s[k] in chars
    requires forall k :: end < k < |s| ==> s[k] in chars
    ensures s == lead + s[start..end + 1] + trail
    ensures AllIn(lead, chars) && AllIn(trail, chars)
  {
    lead, trail := s[..start], s[end + 1..];
    CutAround(s, start, end);
    HeadAllIn(s, start, chars);
    TailAllIn(s, end + 1, chars);
  }

  lemma {:induction false} HeadAllIn(s: string, n: nat, chars: set<char>)
    requires n <= |s|
    requires forall k :: 0 <= k < n ==> s[k] in chars
    ensures AllIn(s[..n], chars)
  {
  }

  lemma {:induction false} TailAllIn(s: string, n: nat, chars: set<char>)
    requires n <= |s|
    requires forall k :: n <= k < |s| ==> s[k] in chars
    ensures AllIn(s[n..], chars)
  {
    forall k | 0 <= k < |s| - n ensures s[n..][k] in chars {
      assert s[n..][k] == s[n + k];
    }
  }

  /** Cutting `s` at the two ends of a non-empty middle puts the pieces back together. */
  lemma {:induction false} CutAround(s: string, start: nat, end: nat)
    requires start <= end < |s|
    ensures s == s[..start] + s[start..end + 1] + s[end + 1..]
  {
    assert s[..start] + s[start..end + 1] == s[..end + 1];
  }

  /** The split of TrimSplit is the only one: any way of writing `s` as stripped
      characters, a trimmed middle and stripped characters has `trim(s)` in the middle. */
  lemma {:induction false} TrimUnique(s: string, lead: string, mid: string, trail: string)
    requires s == lead + mid + trail
    requires AllIn(lead, TrimChars) && AllIn(trail, TrimChars)
    requires IsTrimmed(mid)
    ensures Trim(s) == mid
  {
    if mid == [] {
      assert AllIn(s, TrimChars) by {
        forall k | 0 <= k < |s| ensures s[k] in TrimChars {
          if k < |lead| { assert s[k] == lead[k]; } else { assert s[k] == trail[k - |lead|]; }
        }
      }
    } else {
      var a, b := |lead|, |lead| + |mid|;
      assert s[a] == mid[0];
      assert s[b - 1] == mid[|mid| - 1];
      var first := FindFirstNotOf(s, TrimChars);
      var last := FindLastNotOf(s, TrimChars);
      assert first.Some? && last.Some?;
      assert first.value == a;
      assert last.value == b - 1;
      assert s[a..b] == mid;
    }
  }

  /** Trimming twice changes nothing more than trimming once. */
  lemma {:induction false} TrimIdempotent(s: string)
    ensures Trim(Trim(s)) == Trim(s)
  {
    var lead, trail := TrimSplit(s);
    var t := Trim(s);
    assert t == [] + t + [];
    TrimUnique(t, [], t, []);
  }
}
