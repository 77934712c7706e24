/** The helpers of the front end: slugs, truncation, initials, the e-mail check,
    and the debounce and throttle wrappers, whose timers are explicit events. */
module Utils {
  import opened Strings
  import opened Records

  // ---------------------------------------------------------------- slugify

  /** The characters `[\w-]` that survive the last step of `slugify`. */
  predicate IsSlugChar(c: char) { IsWordChar(c) || c == '-' }

  function SpacesToDashes(s: string): (r: string)
    ensures |r| == |s|
  {
    seq(|s|, i requires 0 <= i < |s| => if s[i] == ' ' then '-' else s[i])
  }

  /** `replace(/[^\w-]+/g, "")`: drop every character outside `[\w-]`. */
  function KeepSlugChars(s: string): string
  {
    if s == [] then []
    else (if IsSlugChar(s[0]) then [s[0]] else []) + KeepSlugChars(s[1..])
  }

  /** `slugify`: lowercase, spaces to dashes, drop the rest of the non-word characters. */
  function Slugify(s: string): string
  {
    KeepSlugChars(SpacesToDashes(Lower(s)))
  }

  /** What one input character contributes to a slug. */
  function SlugOf(c: char): string
  {
    if c == ' ' then "-"
    else if IsSlugChar(ToLowerChar(c)) then [ToLowerChar(c)]
    else []
  }

  /** The slug, character by character: an independent reference for `Slugify`. */
  function SlugByChar(s: string): string
  {
    if s == [] then [] else SlugOf(s[0]) + SlugByChar(s[1..])
  }

  lemma {:induction false} SlugifyIsPerCharacter(s: string)
    ensures Slugify(s) == SlugByChar(s)
  {
    if s != [] {
      SlugifyIsPerCharacter(s[1..]);
      var d := SpacesToDashes(Lower(s));
      assert d[1..] == SpacesToDashes(Lower(s[1..]));
    }
  }

  /** Every space of the input becomes a dash, every ASCII letter its lower case,
      every other character outside `[\w-]` disappears. */
  lemma SpaceBecomesDash(a: string, b: string)
    ensures Slugify(a + " " + b) == Slugify(a) + "-" + Slugify(b)
  {
    var t := " " + b;
    assert a + " " + b == a + t;
    SlugifyIsPerCharacter(a + t);
    SlugifyIsPerCharacter(a);
    SlugifyIsPerCharacter(b);
    SlugByCharConcat(a, t);
    assert t[0] == ' ' && t[1..] == b;
    assert SlugByChar(t) == "-" + SlugByChar(b);
  }

  lemma {:induction false} SlugByCharConcat(a: string, b: string)
    ensures SlugByChar(a + b) == SlugByChar(a) + SlugByChar(b)
  {
    if a != [] {
      assert (a + b)[0] == a[0];
      assert (a + b)[1..] == a[1..] + b;
      SlugByCharConcat(a[1..], b);
      assert SlugByChar(a + b) == SlugOf(a[0]) + SlugByChar(a[1..] + b);
      assert SlugByChar(a) == SlugOf(a[0]) + SlugByChar(a[1..]);
    } else {
      assert a + b == b;
    }
  }

  /** The characters a slug may contain: `[a-z0-9_-]`. */
  predicate IsSlugOutputChar(c: char) { IsLowerAscii(c) || IsDigit(c) || c == '_' || c == '-' }

  lemma {:induction false} SlugAlphabet(s: string)
    ensures forall i :: 0 <= i < |Slugify(s)| ==> IsSlugOutputChar(Slugify(s)[i])
  {
    SlugifyIsPerCharacter(s);
    SlugByCharAlphabet(s);
  }

  lemma {:induction false} SlugByCharAlphabet(s: string)
    ensures forall i :: 0 <= i < |SlugByChar(s)| ==> IsSlugOutputChar(SlugByChar(s)[i])
  {
    if s != [] {
      SlugByCharAlphabet(s[1..]);
    }
  }

  /** A string over `[a-z0-9_-]` is its own slug. */
  lemma {:induction false} SlugOfSlugAlphabet(t: string)
    requires forall i :: 0 <= i < |t| ==> IsSlugOutputChar(t[i])
    ensures SlugByChar(t) == t
  {
    if t != [] {
      SlugOfSlugAlphabet(t[1..]);
      assert SlugOf(t[0]) == [t[0]];
      assert [t[0]] + t[1..] == t;
    }
  }

  lemma SlugifyIdempotent(s: string)
    ensures Slugify(Slugify(s)) == Slugify(s)
  {
    SlugAlphabet(s);
    SlugifyIsPerCharacter(Slugify(s));
    SlugOfSlugAlphabet(Slugify(s));
  }

  // ----------------------------------------------------------- truncateText

  /** `truncateText`: the text itself when it fits, otherwise its first
      `maxLength` characters (none for a negative bound, as `substring` clamps)
      followed by three dots. */
  function TruncateText(text: string, maxLength: int): (r: string)
    ensures |text| <= maxLength ==> r == text
    ensures |text| > maxLength ==>
      var keep := if maxLength < 0 then 0 else maxLength;
      |r| == keep + 3 && r[..keep] == text[..keep] && r[keep..] == "..."
  {
    if |text| <= maxLength then text
    else text[..if maxLength < 0 then 0 else maxLength] + "..."
  }

  // ------------------------------------------------------------ getInitials

  /** `word.charAt(0)` for every word, joined. */
  function FirstChars(words: seq<string>): string
  {
    if words == [] then []
    else (if words[0] == [] then [] else [words[0][0]]) + FirstChars(words[1..])
  }

  function Take(s: string, n: nat): (r: string)
    ensures |r| == if |s| < n then |s| else n
    ensures r == s[..|r|]
  {
    if |s| <= n then s else s[..n]
  }

  /** `getInitials`: split on spaces, first character of each word, joined,
      uppercased, at most two characters. */
  function GetInitials(name: string): string
  {
    Take(Upper(FirstChars(Split(name, ' '))), 2)
  }

  /** The characters that begin a word: not a space, and first or after a
      space (`afterSpace` says whether the previous character was a space). */
  function WordStarts(s: string, afterSpace: bool): string
  {
    if s == [] then []
    else if s[0] == ' ' then WordStarts(s[1..], true)
    else (if afterSpace then [s[0]] else []) + WordStarts(s[1..], false)
  }

  lemma {:induction false} FirstCharsAreWordStarts(s: string)
    ensures FirstChars(Split(s, ' ')) == WordStarts(s, true)
    ensures FirstChars(Split(s, ' ')[1..]) == WordStarts(s, false)
  {
    if s != [] {
      var rest := Split(s[1..], ' ');
      FirstCharsAreWordStarts(s[1..]);
      if s[0] == ' ' {
        assert Split(s, ' ') == [[]] + rest;
        assert ([[]] + rest)[1..] == rest;
      } else {
        var r := Split(s, ' ');
        assert r == [[s[0]] + rest[0]] + rest[1..];
        assert r[1..] == rest[1..];
      }
    }
  }

  /** The initials are the uppercased first characters of the non-empty
      space-separated words, in order, at most two of them. */
  lemma InitialsAreWordStarts(name: string)
    ensures GetInitials(name) == Take(Upper(WordStarts(name, true)), 2)
    ensures |GetInitials(name)| <= 2
  {
    FirstCharsAreWordStarts(name);
  }

  // ----------------------------------------------------------- isValidEmail

  /** The class `[^\s@]`. */
  predicate Plain(c: char) { !IsJsSpace(c) && c != '@' }

  predicate AllPlain(s: string) { forall i :: 0 <= i < |s| ==> Plain(s[i]) }

  /** `/^[^\s@]+@[^\s@]+\.[^\s@]+$/.test(email)`: a non-empty local part, an
      `@` at `at`, a non-empty run before a dot at `dot`, a non-empty run after. */
  predicate MatchesAt(s: string, at: int, dot: int)
  {
    0 < at && at + 1 < dot && dot + 1 < |s| && s[at] == '@' && s[dot] == '.' &&
    AllPlain(s[..at]) && AllPlain(s[at + 1..dot]) && AllPlain(s[dot + 1..])
  }

  predicate IsValidEmail(email: string)
  {
    exists at, dot :: 0 < at < dot < |email| && MatchesAt(email, at, dot)
  }

  /** The regular expression read as a set of conditions: no whitespace,
      exactly one `@`, something before it, and after it a dot that is neither
      the first nor the last character of the domain. */
  predicate EmailConditions(s: string)
  {
    (forall i :: 0 <= i < |s| ==> !IsJsSpace(s[i])) &&
    exists at ::
      0 < at < |s| && s[at] == '@' &&
      (forall k :: 0 <= k < |s| && k != at ==> s[k] != '@') &&
      exists dot :: at + 1 < dot < |s| - 1 && s[dot] == '.'
  }

  lemma IsValidEmailIffConditions(s: string)
    ensures IsValidEmail(s) <==> EmailConditions(s)
  {
    if IsValidEmail(s) {
      var at, dot :| 0 < at < dot < |s| && MatchesAt(s, at, dot);
      assert AllPlain(s[..at]) && AllPlain(s[at + 1..dot]) && AllPlain(s[dot + 1..]);
      forall i | 0 <= i < |s| ensures !IsJsSpace(s[i]) && (i != at ==> s[i] != '@') {
        if i < at {
          assert s[i] == s[..at][i];
        } else if at < i < dot {
          assert s[i] == s[at + 1..dot][i - at - 1];
        } else if dot < i {
          assert s[i] == s[dot + 1..][i - dot - 1];
        }
      }
    }
    if EmailConditions(s) {
      var at :| 0 < at < |s| && s[at] == '@' &&
        (forall k :: 0 <= k < |s| && k != at ==> s[k] != '@') &&
        exists dot :: at + 1 < dot < |s| - 1 && s[dot] == '.';
      var dot :| at + 1 < dot < |s| - 1 && s[dot] == '.';
      assert MatchesAt(s, at, dot);
    }
  }

  // --------------------------------------------------------------- debounce

  /** The state of a debounced function: the arguments of the scheduled
      invocation, if a timer is pending, and the invocations made so far. */
  datatype DebounceState<A> = DebounceState(pending: Option<A>, invoked: seq<A>)

  /** A call cancels the pending timer and schedules one with its own arguments. */
  function DebounceCall<A>(st: DebounceState<A>, args: A): DebounceState<A>
  {
    st.(pending := Some(args))
  }

  /** The timer fires: the wrapped function runs once with the scheduled arguments. */
  function DebounceFire<A>(st: DebounceState<A>): DebounceState<A>
  {
    match st.pending
    case Some(a) => DebounceState(None, st.invoked + [a])
    case None => st
  }

  function DebounceCalls<A>(st: DebounceState<A>, calls: seq<A>): DebounceState<A>
    decreases |calls|
  {
    if calls == [] then st else DebounceCalls(DebounceCall(st, calls[0]), calls[1..])
  }

  /** A burst of calls leaves one timer pending, holding the last call's
      arguments, and runs nothing. */
  lemma {:induction false} BurstKeepsLastCall<A>(st: DebounceState<A>, calls: seq<A>)
    requires calls != []
    ensures DebounceCalls(st, calls) == DebounceState(Some(calls[|calls| - 1]), st.invoked)
    decreases |calls|
  {
    if |calls| > 1 {
      BurstKeepsLastCall(DebounceCall(st, calls[0]), calls[1..]);
    }
  }

  /** Trailing edge: after a burst, one firing runs the function exactly once,
      with the arguments of the most recent call. */
  lemma BurstThenFireRunsOnce<A>(st: DebounceState<A>, calls: seq<A>)
    requires calls != []
    ensures DebounceFire(DebounceCalls(st, calls)) == DebounceState(None, st.invoked + [calls[|calls| - 1]])
  {
    BurstKeepsLastCall(st, calls);
  }

  /** `debounce(func, wait)`: the closure's `timeout` is `pending`, and every
      run of `func` is recorded in `invoked`. */
  class Debouncer<A> {
    const wait: int
    var pending: Option<A>
    var invoked: seq<A>

    function State(): DebounceState<A>
      reads this
    {
      DebounceState(pending, invoked)
    }

    constructor (wait: int)
      ensures this.wait == wait && State() == DebounceState(None, [])
    {
      this.wait := wait;
      pending := None;
      invoked := [];
    }

    /** Calling the debounced function. */
    method Call(args: A)
      modifies this
      ensures State() == DebounceCall(old(State()), args)
    {
      pending := Some(args);
    }

    /** The pending timer elapses; returns the arguments `func` ran with, if any. */
    method Fire() returns (ran: Option<A>)
      modifies this
      ensures ran == old(pending)
      ensures State() == DebounceFire(old(State()))
    {
      ran := pending;
      if pending.Some? {
        invoked := invoked + [pending.value];
        pending := None;
      }
    }
  }

  // --------------------------------------------------------------- throttle

  /** The state of a throttled function: whether the window is open, and the
      invocations made so far. */
  datatype ThrottleState<A> = ThrottleState(inThrottle: bool, invoked: seq<A>)

  /** Outside the window a call runs at once and opens it; inside it is dropped. */
  function ThrottleCall<A>(st: ThrottleState<A>, args: A): ThrottleState<A>
  {
    if !st.inThrottle then ThrottleState(true, st.invoked + [args]) else st
  }

  /** The window's timer elapses. */
  function ThrottleExpire<A>(st: ThrottleState<A>): ThrottleState<A>
  {
    st.(inThrottle := false)
  }

  function ThrottleCalls<A>(st: ThrottleState<A>, calls: seq<A>): ThrottleState<A>
    decreases |calls|
  {
    if calls == [] then st else ThrottleCalls(ThrottleCall(st, calls[0]), calls[1..])
  }

  /** Calls inside an open window are dropped, not deferred. */
  lemma {:induction false} CallsInWindowDropped<A>(st: ThrottleState<A>, calls: seq<A>)
    requires st.inThrottle
    ensures ThrottleCalls(st, calls) == st
    decreases |calls|
  {
    if calls != [] {
      CallsInWindowDropped(ThrottleCall(st, calls[0]), calls[1..]);
    }
  }

  /** Of a burst of calls within one window, only the first runs. */
  lemma BurstRunsFirstOnly<A>(st: ThrottleState<A>, calls: seq<A>)
    requires !st.inThrottle && calls != []
    ensures ThrottleCalls(st, calls) == ThrottleState(true, st.invoked + [calls[0]])
  {
    CallsInWindowDropped(ThrottleCall(st, calls[0]), calls[1..]);
  }

  /** Once the window closes the next call runs again. */
  lemma CallAfterWindowRuns<A>(st: ThrottleState<A>, args: A)
    ensures ThrottleCall(ThrottleExpire(st), args).invoked == st.invoked + [args]
  {
  }

  /** `throttle(func, limit)`: the closure's `inThrottle` flag (initially
      undefined, hence falsy), and every run of `func` recorded in `invoked`. */
  class Throttler<A> {
    const limit: int
    var inThrottle: bool
    var invoked: seq<A>

    function State(): ThrottleState<A>
      reads this
    {
      ThrottleState(inThrottle, invoked)
    }

    constructor (limit: int)
      ensures this.limit == limit && State() == ThrottleState(false, [])
    {
      this.limit := limit;
      inThrottle := false;
      invoked := [];
    }

    /** Calling the throttled function; `ran` tells whether `func` ran now. */
    method Call(args: A) returns (ran: bool)
      modifies this
      ensures ran == !old(inThrottle)
      ensures State() == ThrottleCall(old(State()), args)
    {
      ran := !inThrottle;
      if !inThrottle {
        invoked := invoked + [args];
        inThrottle := true;
      }
    }

    /** The `limit` timer elapses and closes the window. */
    method Expire()
      modifies this
      ensures State() == ThrottleExpire(old(State()))
    {
      inThrottle := false;
    }
  }
}
