/**
 * Request parsing for the broker: `consume` (the verb and the payload of a
 * request), the case-insensitive choice of handler, and the command line
 * START hands to the shell.
 */
module Protocol {
  import opened Wire

  /**
   * `consume`: the verb is the bytes before the first space and the payload
   * everything after that space; a request without a space is all verb.
   */
  function Consume(request: Bytes): (r: (Bytes, Bytes))
    ensures ' ' !in r.0
    ensures ' ' in request ==> request == r.0 + " " + r.1
    ensures ' ' !in request ==> r.0 == request && r.1 == []
  {
    var i := IndexOf(request, ' ');
    if i == |request| then (request, []) else (request[..i], request[i + 1..])
  }

  /** The handler a request selects; `Unrecognised` falls through every branch. */
  datatype Verb = START | STOP | PORT | Unrecognised

  function AsciiUpper(c: byte): byte
  {
    if 'a' <= c <= 'z' then (c as int - 32) as char else c
  }

  /**
   * Python's `str.upper()` of the UTF-8 text `v`, as far as it can decide
   * whether the result is START, STOP or PORT: ASCII letters are upper-cased,
   * U+017F (long s, bytes C5 BF) becomes "S" and the ligatures U+FB05 and
   * U+FB06 (bytes EF AC 85 and EF AC 86) become "ST". Every other non-ASCII
   * character either stays non-ASCII or upper-cases to letters none of the
   * three keywords can use at that place, so its bytes are kept as they are.
   */
  function KeywordUpper(v: Bytes): Bytes
    decreases |v|
  {
    if v == [] then []
    else if |v| >= 2 && v[0] == '\U{C5}' && v[1] == '\U{BF}' then "S" + KeywordUpper(v[2..])
    else if |v| >= 3 && v[0] == '\U{EF}' && v[1] == '\U{AC}' && (v[2] == '\U{85}' || v[2] == '\U{86}') then
      "ST" + KeywordUpper(v[3..])
    else [AsciiUpper(v[0])] + KeywordUpper(v[1..])
  }

  /**
   * `method.upper()` compared with the three keywords, after `decode()`:
   * `None` when the verb is not UTF-8 (the decode raises before any branch).
   */
  function DecodeVerb(verb: Bytes): (r: Option<Verb>)
    ensures r == None <==> !ValidUtf8(verb)
  {
    if !ValidUtf8(verb) then None
    else
      var upper := KeywordUpper(verb);
      Some(if upper == "START" then START
           else if upper == "STOP" then STOP
           else if upper == "PORT" then PORT
           else Unrecognised)
  }

  /** `v` spells the upper-case ASCII word `keyword` with any mix of cases: each letter as is or 32 codes higher. */
  predicate IsCasingOf(v: Bytes, keyword: Bytes)
  {
    && |v| == |keyword|
    && forall i :: 0 <= i < |v| ==> v[i] == keyword[i] || v[i] as int == keyword[i] as int + 32
  }

  lemma {:induction false} KeywordUpperAscii(v: Bytes)
    requires IsAscii(v)
    ensures |KeywordUpper(v)| == |v|
    ensures forall i :: 0 <= i < |v| ==> KeywordUpper(v)[i] == AsciiUpper(v[i])
    decreases |v|
  {
    if v != [] {
      assert IsAscii(v[1..]) by {
        forall i | 0 <= i < |v[1..]| ensures v[1..][i] as int < 0x80 {
          assert v[1..][i] == v[i + 1];
        }
      }
      KeywordUpperAscii(v[1..]);
      assert KeywordUpper(v) == [AsciiUpper(v[0])] + KeywordUpper(v[1..]);
    }
  }

  lemma UpperMatchesKeyword(v: Bytes, keyword: Bytes)
    requires IsAscii(v)
    requires forall i :: 0 <= i < |keyword| ==> 'A' <= keyword[i] <= 'Z'
    ensures KeywordUpper(v) == keyword <==> IsCasingOf(v, keyword)
  {
    KeywordUpperAscii(v);
    if IsCasingOf(v, keyword) {
      assert KeywordUpper(v) == keyword by {
        forall i | 0 <= i < |v| ensures KeywordUpper(v)[i] == keyword[i] {
        }
      }
    }
  }

  /**
   * Verb matching ignores case: an ASCII verb selects START, STOP or PORT
   * exactly when it is some casing of that word, and every other ASCII verb
   * is unrecognised.
   */
  lemma VerbCaseInsensitive(v: Bytes)
    requires IsAscii(v)
    ensures DecodeVerb(v) == Some(START) <==> IsCasingOf(v, "START")
    ensures DecodeVerb(v) == Some(STOP) <==> IsCasingOf(v, "STOP")
    ensures DecodeVerb(v) == Some(PORT) <==> IsCasingOf(v, "PORT")
    ensures DecodeVerb(v) == Some(Unrecognised) <==>
              !IsCasingOf(v, "START") && !IsCasingOf(v, "STOP") && !IsCasingOf(v, "PORT")
  {
    AsciiIsUtf8(v);
    UpperMatchesKeyword(v, "START");
    UpperMatchesKeyword(v, "STOP");
    UpperMatchesKeyword(v, "PORT");
  }

  /** Each keyword, written in capitals, selects its own handler. */
  lemma KeywordSelectsItself(keyword: Bytes, v: Verb)
    requires (keyword, v) in {("START", START), ("STOP", STOP), ("PORT", PORT)}
    ensures DecodeVerb(keyword) == Some(v)
  {
    assert IsAscii(keyword);
    assert IsCasingOf(keyword, keyword);
    VerbCaseInsensitive(keyword);
  }

  /** A verb written with the long s, "ſtop" in UTF-8, also selects STOP. */
  lemma LongSSelectsStop()
    ensures DecodeVerb(['\U{C5}', '\U{BF}', 't', 'o', 'p']) == Some(STOP)
  {
    var v: Bytes := ['\U{C5}', '\U{BF}', 't', 'o', 'p'];
    assert KeywordUpper(v[2..]) == "TOP" by {
      assert v[2..] == "top";
      KeywordUpperAscii("top");
    }
  }

  // ---------------------------------------------------------------------
  // The child command line
  // ---------------------------------------------------------------------

  /** One step of `os.path.join`: an absolute part restarts the path, else a '/' goes between. */
  function JoinStep(path: Bytes, part: Bytes): Bytes
  {
    if |part| > 0 && part[0] == '/' then part
    else if path == [] || path[|path| - 1] == '/' then path + part
    else path + "/" + part
  }

  /** `os.path.join(base, *parts)` on POSIX. */
  function PathJoin(base: Bytes, parts: seq<Bytes>): Bytes
    decreases |parts|
  {
    if parts == [] then base else PathJoin(JoinStep(base, parts[0]), parts[1..])
  }

  /**
   * The shell command START runs for session `sid`: the payload's
   * space-separated parts joined onto the working directory, run with
   * python, with the session id appended as the last argument.
   */
  function ChildCommand(workingDir: Bytes, payload: Bytes, sid: int): Bytes
  {
    "python " + PathJoin(workingDir, Split(payload, ' ')) + " " + Decimal(sid)
  }

  /** A relative path segment that `os.path.join` neither restarts at nor merges slashes around. */
  predicate IsPlainSegment(p: Bytes)
  {
    p != [] && p[0] != '/' && p[|p| - 1] != '/'
  }

  lemma {:induction false} PathJoinPlain(base: Bytes, parts: seq<Bytes>)
    requires base != [] && base[|base| - 1] != '/'
    requires parts != [] && forall k :: 0 <= k < |parts| ==> IsPlainSegment(parts[k])
    ensures PathJoin(base, parts) == base + "/" + JoinWith(parts, '/')
    decreases |parts|
  {
    var next := base + "/" + parts[0];
    assert JoinStep(base, parts[0]) == next;
    if |parts| > 1 {
      PathJoinPlain(next, parts[1..]);
    }
  }

  /**
   * When the working directory is a non-empty path without a trailing '/'
   * and every space-separated part of the payload is a plain relative
   * segment, the child runs `<workingDir>/<parts joined by '/'>`.
   */
  lemma CommandForRelativePath(workingDir: Bytes, payload: Bytes, sid: int)
    requires workingDir != [] && workingDir[|workingDir| - 1] != '/'
    requires forall k :: 0 <= k < |Split(payload, ' ')| ==> IsPlainSegment(Split(payload, ' ')[k])
    ensures ChildCommand(workingDir, payload, sid)
            == "python " + workingDir + "/" + JoinWith(Split(payload, ' '), '/') + " " + Decimal(sid)
  {
    PathJoinPlain(workingDir, Split(payload, ' '));
  }

  /**
   * Whatever the payload, the session id is the command's last
   * space-separated argument, and it reads back as the id itself.
   */
  lemma SessionIdIsLastArgument(workingDir: Bytes, payload: Bytes, sid: int)
    ensures var args := Split(ChildCommand(workingDir, payload, sid), ' ');
            args[|args| - 1] == Decimal(sid) && ParseInt(args[|args| - 1]) == Some(sid)
  {
    var head := "python " + PathJoin(workingDir, Split(payload, ' '));
    DecimalAlphabet(sid);
    assert ' ' !in Decimal(sid) by {
      forall i | 0 <= i < |Decimal(sid)| ensures Decimal(sid)[i] != ' ' {
      }
    }
    assert ChildCommand(workingDir, payload, sid) == head + [' '] + Decimal(sid);
    SplitAppendField(head, ' ', Decimal(sid));
    DecimalRoundTrip(sid);
  }
}
