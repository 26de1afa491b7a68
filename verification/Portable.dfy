/** Names that can be restored on every system, and the nearest such name to any other. */
module Portable {
  import opened Prelude

  predicate Control(c: char) { c < ' ' || c == '\U{7f}' }

  predicate Illegal(c: char) { Control(c) || c in "<>:\"|?*" }

  function Upper(s: string): string {
    if s == "" then "" else [if 'a' <= s[0] <= 'z' then (s[0] as int - 32) as char else s[0]] + Upper(s[1..])
  }

  /** The part of a name before its first dot. */
  function Stem(s: string): string {
    if s == "" || s[0] == '.' then "" else [s[0]] + Stem(s[1..])
  }

  /** The device names, with or without an extension. */
  predicate ReservedStem(s: string) {
    var stem := Upper(Stem(s));
    || stem in {"CON", "PRN", "AUX", "NUL"}
    || (|stem| == 4 && stem[..3] in {"COM", "LPT"} && '1' <= stem[3] <= '9')
  }

  predicate LegalChars(s: string) { forall i :: 0 <= i < |s| ==> !Illegal(s[i]) }

  predicate TrailsOff(s: string) { s != "" && (Last(s) == '.' || Last(s) == ' ') }

  predicate PortableName(s: string) { s != "" && LegalChars(s) && !TrailsOff(s) && !ReservedStem(s) }

  datatype Fault = Fine | Empty | BadChar(c: char) | BadEnd(c: char) | Device

  /** The policy for new names; a fault names the first rule broken. */
  method ValidatePortableName(segment: string) returns (fault: Fault)
    ensures fault == Fine <==> PortableName(segment)
    ensures fault.BadChar? ==> Illegal(fault.c) && fault.c in segment
    ensures fault.BadEnd? ==> LegalChars(segment) && TrailsOff(segment) && fault.c == Last(segment)
  {
    if segment == "" {
      return Empty;
    }
    for i := 0 to |segment|
      invariant forall j :: 0 <= j < i ==> !Illegal(segment[j])
    {
      if Control(segment[i]) {
        return BadChar(segment[i]);
      }
      if segment[i] in "<>:\"|?*" {
        return BadChar(segment[i]);
      }
    }
    if Last(segment) == '.' || Last(segment) == ' ' {
      return BadEnd(Last(segment));
    }
    if ReservedStem(segment) {
      return Device;
    }
    fault := Fine;
  }

  // ---- Sanitising ----

  function Replaced(s: string): string {
    if s == "" then "" else Replaced(Init(s)) + [if Illegal(Last(s)) then '_' else Last(s)]
  }

  function Trimmed(s: string): string
    decreases |s|
  {
    if TrailsOff(s) then Trimmed(Init(s)) else s
  }

  function Guarded(s: string): string {
    var named := if s == "" then "_" else s;
    if ReservedStem(named) then "_" + named else named
  }

  function Sanitized(s: string): string { Guarded(Trimmed(Replaced(s))) }

  method SanitizePortableSegment(segment: string) returns (out: string)
    ensures out == Sanitized(segment)
  {
    var b := "";
    for i := 0 to |segment|
      invariant b == Replaced(segment[..i])
    {
      assert Init(segment[..i + 1]) == segment[..i];
      if Illegal(segment[i]) {
        b := b + "_";
      } else {
        b := b + [segment[i]];
      }
    }
    assert segment[..|segment|] == segment;
    out := b;
    while TrailsOff(out)
      invariant Trimmed(out) == Trimmed(b)
      decreases |out|
    {
      out := Init(out);
    }
    if out == "" {
      out := "_";
    }
    if ReservedStem(out) {
      out := "_" + out;
    }
  }

  lemma ReplacedIsLegal(s: string)
    ensures LegalChars(Replaced(s))
    ensures LegalChars(s) ==> Replaced(s) == s
  {
    assert !Illegal('_');
    ReplacedAt(s);
    hide Illegal;
    hide Replaced;
  }

  lemma {:induction false} TrimmedIsPrefix(s: string)
    ensures Trimmed(s) <= s && !TrailsOff(Trimmed(s))
    decreases |s|
  {
    if TrailsOff(s) {
      TrimmedIsPrefix(Init(s));
    }
  }

  /** Every name sanitises to a portable one; exactly the portable names are left alone. */
  lemma SanitizedIsPortable(s: string)
    ensures PortableName(Sanitized(s))
    ensures Sanitized(s) == s <==> PortableName(s)
  {
    ReplacedIsLegal(s);
    TrimmedIsPrefix(Replaced(s));
    GuardedIsPortable(Trimmed(Replaced(s)));
  }

  lemma GuardedIsPortable(t: string)
    requires LegalChars(t) && !TrailsOff(t)
    ensures PortableName(Guarded(t))
    ensures t != "" && !ReservedStem(t) ==> Guarded(t) == t
  {
    var named := if t == "" then "_" else t;
    assert Last(named) == if t == "" then '_' else Last(t);
    UnderscoreIsNoDevice(named[1..]);
    UnderscoreIsNoDevice(named);
    assert "_" + named == ['_'] + named;
    if t == "" {
      assert ['_'] + named[1..] == "_";
    }
  }

  lemma UnderscoreIsNoDevice(s: string)
    ensures !ReservedStem(['_'] + s)
  {
    var t := ['_'] + s;
    assert t[1..] == s;
    var stem := Upper(Stem(t));
    assert stem[0] == '_';
    assert "CON"[0] == 'C' && "PRN"[0] == 'P' && "AUX"[0] == 'A' && "NUL"[0] == 'N';
    if |stem| == 4 {
      assert stem[..3][0] == '_';
      assert "COM"[0] == 'C' && "LPT"[0] == 'L';
    }
  }

  /** Sanitising twice is sanitising once. */
  lemma SanitizedIsIdempotent(s: string)
    ensures Sanitized(Sanitized(s)) == Sanitized(s)
  {
    SanitizedIsPortable(s);
    SanitizedIsPortable(Sanitized(s));
  }

  // ---- Which names and which forms ----

  /** A name is refused for each of these reasons, and for no other. */
  lemma RefusedExactly(s: string)
    ensures !PortableName(s) <==>
            || s == "" || s[|s| - 1] == '.' || s[|s| - 1] == ' '
            || (exists i :: 0 <= i < |s| && (s[i] < ' ' || s[i] == '\U{7f}' || s[i] in {'<', '>', ':', '"', '|', '?', '*'}))
            || Upper(Stem(s)) in {"CON", "PRN", "AUX", "NUL", "COM1", "COM2", "COM3", "COM4", "COM5", "COM6", "COM7", "COM8", "COM9",
                                  "LPT1", "LPT2", "LPT3", "LPT4", "LPT5", "LPT6", "LPT7", "LPT8", "LPT9"}
  {
    IllegalIs(s);
    ReservedIs(s);
    hide LegalChars;
    hide ReservedStem;
  }

  lemma IllegalIs(s: string)
    ensures !LegalChars(s) <==>
            exists i :: 0 <= i < |s| && (s[i] < ' ' || s[i] == '\U{7f}' || s[i] in {'<', '>', ':', '"', '|', '?', '*'})
  {
    forall c ensures Illegal(c) <==> c < ' ' || c == '\U{7f}' || c in {'<', '>', ':', '"', '|', '?', '*'} {
    }
    hide Illegal;
  }

  lemma ReservedIs(s: string)
    ensures ReservedStem(s) <==>
            Upper(Stem(s)) in {"CON", "PRN", "AUX", "NUL", "COM1", "COM2", "COM3", "COM4", "COM5", "COM6", "COM7", "COM8", "COM9",
                               "LPT1", "LPT2", "LPT3", "LPT4", "LPT5", "LPT6", "LPT7", "LPT8", "LPT9"}
  {
    var stem := Upper(Stem(s));
    hide Upper;
    hide Stem;
    if |stem| == 4 {
      NumberedDevice(stem);
    }
  }

  lemma NumberedDevice(stem: string)
    requires |stem| == 4
    ensures stem[..3] in {"COM", "LPT"} && '1' <= stem[3] <= '9' <==>
            stem in {"COM1", "COM2", "COM3", "COM4", "COM5", "COM6", "COM7", "COM8", "COM9",
                     "LPT1", "LPT2", "LPT3", "LPT4", "LPT5", "LPT6", "LPT7", "LPT8", "LPT9"}
  {
    assert stem == stem[..3] + [stem[3]];
    forall d: char ensures ("COM" + [d])[..3] == "COM" && ("LPT" + [d])[..3] == "LPT" {
    }
    assert "COM1" == "COM" + ['1'] && "COM2" == "COM" + ['2'] && "COM3" == "COM" + ['3'] && "COM4" == "COM" + ['4'];
    assert "COM5" == "COM" + ['5'] && "COM6" == "COM" + ['6'] && "COM7" == "COM" + ['7'] && "COM8" == "COM" + ['8'] && "COM9" == "COM" + ['9'];
    assert "LPT1" == "LPT" + ['1'] && "LPT2" == "LPT" + ['2'] && "LPT3" == "LPT" + ['3'] && "LPT4" == "LPT" + ['4'];
    assert "LPT5" == "LPT" + ['5'] && "LPT6" == "LPT" + ['6'] && "LPT7" == "LPT" + ['7'] && "LPT8" == "LPT" + ['8'] && "LPT9" == "LPT" + ['9'];
  }

  lemma {:induction false} UpperAndStem(s: string, i: nat)
    requires i < |s|
    ensures |Upper(s)| == |s| && Upper(s)[i] == if 'a' <= s[i] <= 'z' then (s[i] as int - 'a' as int + 'A' as int) as char else s[i]
    ensures Stem(s) <= s && '.' !in Stem(s) && (|Stem(s)| < |s| ==> s[|Stem(s)|] == '.')
  {
    if i > 0 {
      UpperAndStem(s[1..], i - 1);
    } else if |s| > 1 {
      UpperAndStem(s[1..], 0);
    }
  }

  /** What is not portable about a name is underlined, what trails is cut, a device name is prefixed. */
  lemma SanitizedIs(s: string)
    ensures var t := Trimmed(Replaced(s));
            && |Replaced(s)| == |s| && (forall i :: 0 <= i < |s| ==> Replaced(s)[i] == if Illegal(s[i]) then '_' else s[i])
            && t <= Replaced(s) && (forall i :: |t| <= i < |s| ==> Replaced(s)[i] == '.' || Replaced(s)[i] == ' ')
            && Sanitized(s) == (if t == "" then "_" else if ReservedStem(t) then "_" + t else t)
  {
    TrimmedIsPrefix(Replaced(s));
    ReplacedAt(s);
    TrimmedCuts(Replaced(s));
    assert Upper(Stem("_")) == "_";
  }

  lemma {:induction false} ReplacedAt(s: string)
    ensures |Replaced(s)| == |s| && forall i :: 0 <= i < |s| ==> Replaced(s)[i] == if Illegal(s[i]) then '_' else s[i]
  {
    if s != "" {
      ReplacedAt(Init(s));
    }
  }

  lemma {:induction false} TrimmedCuts(s: string)
    ensures |Trimmed(s)| <= |s| && forall i :: |Trimmed(s)| <= i < |s| ==> s[i] == '.' || s[i] == ' '
    decreases |s|
  {
    if TrailsOff(s) {
      TrimmedCuts(Init(s));
    }
  }

  // ---- Names with a suffix after a dot ----

  lemma {:induction false} StemOfDotted(s: string, suffix: string)
    ensures Stem(s + "." + suffix) == Stem(s)
  {
    var t := s + "." + suffix;
    if s != "" && s[0] != '.' {
      assert t[1..] == s[1..] + "." + suffix;
      StemOfDotted(s[1..], suffix);
    }
  }

  /** A portable name stays one under a dotted suffix that is legal and ends well. */
  lemma DottedIsPortable(s: string, suffix: string)
    requires PortableName(s) && suffix != "" && LegalChars(suffix) && !TrailsOff(suffix)
    ensures PortableName(s + "." + suffix)
  {
    StemOfDotted(s, suffix);
    var t := s + "." + suffix;
    assert Last(t) == Last(suffix);
    forall i | 0 <= i < |t| ensures !Illegal(t[i]) {
      if i < |s| {
        assert t[i] == s[i];
      } else if i > |s| {
        assert t[i] == suffix[i - |s| - 1];
      }
    }
  }
}
