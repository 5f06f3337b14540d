/**
  `TagInput` (components/tag-input.tsx): validation of a typed tag, adding it
  on Enter or comma, removal, Backspace on an empty field, and splitting a
  pasted text into tags. The component never owns the tag list: every change
  is handed to `onChange` as a complete new array, which is what the
  functions here return as their emission.
 */
module TagInput {
  import opened Base
  import opened JsText

  /** The `maxTags` and `maxLength` props. */
  datatype TagLimits = TagLimits(maxTags: int, maxLength: int)

  const DefaultLimits: TagLimits := TagLimits(10, 50)

  /** The six checks of `validateTag`, in the order they are made. */
  datatype TagError = EmptyTag | MissingHash | TooLong | TooMany | AlreadyExists | BadCharacters

  function Rank(e: TagError): nat
  {
    match e
    case EmptyTag => 0
    case MissingHash => 1
    case TooLong => 2
    case TooMany => 3
    case AlreadyExists => 4
    case BadCharacters => 5
  }

  /** The text shown under the field for each error. */
  function ErrorMessage(limits: TagLimits, e: TagError): string
  {
    match e
    case EmptyTag => "Tag cannot be empty"
    case MissingHash => "Tag must start with #"
    case TooLong => "Tag must be " + DecimalString(limits.maxLength) + " characters or less"
    case TooMany => "Maximum " + DecimalString(limits.maxTags) + " tags allowed"
    case AlreadyExists => "Tag already exists"
    case BadCharacters => "Tag can only contain letters, numbers, and underscores"
  }

  predicate IsTagChar(c: char)
  {
    ('a' <= c <= 'z') || ('A' <= c <= 'Z') || ('0' <= c <= '9') || c == '_'
  }

  /** `/^#[a-zA-Z0-9_]+$/`: a hash, then one or more letters, digits or underscores. */
  predicate MatchesTagPattern(s: string)
  {
    |s| >= 2 && s[0] == '#' && forall i :: 1 <= i < |s| ==> IsTagChar(s[i])
  }

  function LowerAll(value: seq<string>): (r: seq<string>)
    ensures |r| == |value| && forall i :: 0 <= i < |value| ==> r[i] == Lower(value[i])
  {
    seq(|value|, i requires 0 <= i < |value| => Lower(value[i]))
  }

  /** `tag` equals an existing tag when both are lower-cased. */
  predicate IsDuplicate(value: seq<string>, tag: string)
  {
    Lower(tag) in LowerAll(value)
  }

  /** No two tags that differ only in letter case. */
  predicate CaseInsensitiveUnique(value: seq<string>)
  {
    forall i, j :: 0 <= i < j < |value| ==> Lower(value[i]) != Lower(value[j])
  }

  /** Whether the trimmed tag passes check `e`. */
  predicate Passes(limits: TagLimits, value: seq<string>, trimmed: string, e: TagError)
  {
    match e
    case EmptyTag => trimmed != ""
    case MissingHash => StartsWith(trimmed, "#")
    case TooLong => |trimmed| <= limits.maxLength
    case TooMany => |value| < limits.maxTags
    case AlreadyExists => !IsDuplicate(value, trimmed)
    case BadCharacters => MatchesTagPattern(trimmed)
  }

  /**
    `validateTag`: no error exactly when the trimmed tag passes every check;
    otherwise the error is the first check, in order, that fails.
   */
  function ValidateTag(limits: TagLimits, value: seq<string>, tag: string): (r: Option<TagError>)
    ensures r.None? <==> forall e :: Passes(limits, value, Trim(tag), e)
    ensures r.Some? ==>
      && !Passes(limits, value, Trim(tag), r.value)
      && forall e :: Rank(e) < Rank(r.value) ==> Passes(limits, value, Trim(tag), e)
  {
    FirstFailingCheck(limits, value, Trim(tag));
    CheckChain(limits, value, Trim(tag))
  }

  /** The checks of `validateTag` on an already trimmed tag, as the chain of early returns. */
  function CheckChain(limits: TagLimits, value: seq<string>, t: string): Option<TagError>
  {
    if t == "" then Some(EmptyTag)
    else if !StartsWith(t, "#") then Some(MissingHash)
    else if |t| > limits.maxLength then Some(TooLong)
    else if |value| >= limits.maxTags then Some(TooMany)
    else if IsDuplicate(value, t) then Some(AlreadyExists)
    else if !MatchesTagPattern(t) then Some(BadCharacters)
    else None
  }

  lemma FirstFailingCheck(limits: TagLimits, value: seq<string>, t: string)
    ensures var r := CheckChain(limits, value, t);
      && (r.None? <==> forall e :: Passes(limits, value, t, e))
      && (r.Some? ==>
        && !Passes(limits, value, t, r.value)
        && forall e :: Rank(e) < Rank(r.value) ==> Passes(limits, value, t, e))
  {
    var r := CheckChain(limits, value, t);
    forall e | r.None? || Rank(e) < Rank(r.value) ensures Passes(limits, value, t, e) {
      match e
      case EmptyTag =>
      case MissingHash =>
      case TooLong =>
      case TooMany =>
      case AlreadyExists =>
      case BadCharacters =>
    }
    if r.Some? {
      assert !Passes(limits, value, t, r.value);
    }
  }

  /** `validateTag(tag)` returns null: the tag is acceptable. */
  predicate Accepts(limits: TagLimits, value: seq<string>, tag: string)
  {
    CheckChain(limits, value, Trim(tag)).None?
  }

  /**
    What an accepted tag looks like: trimmed, a hash and word characters only,
    within the length limit, room left, and no case-insensitive twin.
   */
  lemma AcceptedTagShape(limits: TagLimits, value: seq<string>, tag: string)
    requires Accepts(limits, value, tag)
    ensures ValidateTag(limits, value, tag).None?
    ensures var t := Trim(tag);
      && MatchesTagPattern(t) && |t| <= limits.maxLength && |value| < limits.maxTags
      && !IsDuplicate(value, t)
      && (forall i :: 0 <= i < |t| ==> !IsWhitespace(t[i]))
      && (forall i :: 0 <= i < |value| ==> Lower(value[i]) != Lower(t))
  {
    var t := Trim(tag);
    forall i | 0 <= i < |value| ensures Lower(value[i]) != Lower(t) {
      assert LowerAll(value)[i] == Lower(value[i]);
    }
  }

  /** The pattern already implies the first two checks: a tag it accepts is non-empty and starts with '#'. */
  lemma PatternImpliesPrefix(t: string)
    requires MatchesTagPattern(t)
    ensures t != "" && StartsWith(t, "#")
  {
  }

  /** Appending a tag with no case-insensitive twin keeps the list case-insensitively unique. */
  lemma AppendKeepsUnique(value: seq<string>, t: string)
    requires CaseInsensitiveUnique(value) && !IsDuplicate(value, t)
    ensures CaseInsensitiveUnique(value + [t])
  {
    var v := value + [t];
    forall i, j | 0 <= i < j < |v| ensures Lower(v[i]) != Lower(v[j]) {
      if j == |value| {
        assert LowerAll(value)[i] == Lower(value[i]);
      }
    }
  }

  /** The text field and its error line. */
  datatype Field = Field(input: string, error: Option<TagError>)

  /** A handler's effect: the array passed to `onChange`, if any, and the field afterwards. */
  datatype Outcome = Outcome(emitted: Option<seq<string>>, field: Field)

  /**
    `addTag`: the error is cleared; a blank field does nothing else; an
    invalid tag is reported and stays in the field; a valid one is emitted
    (trimmed) after the existing tags and the field is emptied.
   */
  function AddTag(limits: TagLimits, value: seq<string>, input: string): (r: Outcome)
    ensures Trim(input) == "" ==> r == Outcome(None, Field(input, None))
    ensures r.emitted.Some? <==> ValidateTag(limits, value, input).None?
    ensures r.emitted.Some? ==>
      && r.emitted.value == value + [Trim(input)]
      && |r.emitted.value| <= limits.maxTags
      && r.field == Field("", None)
    ensures r.emitted.None? && Trim(input) != "" ==> r.field == Field(input, ValidateTag(limits, value, input))
  {
    var t := Trim(input);
    if t == "" then Outcome(None, Field(input, None))
    else
      match ValidateTag(limits, value, input)
      case Some(e) => Outcome(None, Field(input, Some(e)))
      case None =>
        assert Passes(limits, value, t, MissingHash) && Passes(limits, value, t, TooMany);
        var newTag := if StartsWith(t, "#") then t else "#" + t;
        Outcome(Some(value + [newTag]), Field("", None))
  }

  /** An added tag never duplicates an existing one, ignoring letter case. */
  lemma AddTagKeepsUnique(limits: TagLimits, value: seq<string>, input: string)
    requires CaseInsensitiveUnique(value)
    requires AddTag(limits, value, input).emitted.Some?
    ensures CaseInsensitiveUnique(AddTag(limits, value, input).emitted.value)
  {
    assert Passes(limits, value, Trim(input), AlreadyExists);
    AppendKeepsUnique(value, Trim(input));
  }

  /** `removeTag`: every copy of the tag goes, the others stay in order. */
  function RemoveTag(value: seq<string>, tag: string): (r: seq<string>)
    ensures tag !in r
    ensures forall t :: t in r <==> t in value && t != tag
    ensures |r| == |value| - Occ(value, tag)
  {
    RemoveAll(value, tag)
  }

  /** Removing a tag just added gives back the list it was added to. */
  lemma AddThenRemove(limits: TagLimits, value: seq<string>, input: string)
    requires AddTag(limits, value, input).emitted.Some?
    ensures RemoveTag(AddTag(limits, value, input).emitted.value, Trim(input)) == value
  {
    var t := Trim(input);
    AcceptedTagShape(limits, value, input);
    RemoveAllAppendSelf(value, t);
    RemoveAllAbsent(value, t);
  }

  /**
    `handleKeyDown`: Enter and comma add the typed tag; Backspace in an empty
    field removes the last tag (every copy of it); other keys do nothing here.
   */
  function HandleKeyDown(limits: TagLimits, value: seq<string>, field: Field, key: string): (r: Outcome)
    ensures key == "Enter" || key == "," ==> r == AddTag(limits, value, field.input)
    ensures key == "Backspace" ==> r.field == field && (r.emitted.Some? <==> field.input == "" && |value| > 0)
    ensures key == "Backspace" && r.emitted.Some? ==>
      && value[|value| - 1] !in r.emitted.value
      && |r.emitted.value| < |value|
      && IsSubseq(r.emitted.value, value)
      && r.emitted.value == RemoveTag(value, value[|value| - 1])
    ensures key != "Enter" && key != "," && key != "Backspace" ==> r == Outcome(None, field)
  {
    if key == "Enter" then AddTag(limits, value, field.input)
    else if key == "Backspace" && field.input == "" && |value| > 0 then
      var last := value[|value| - 1];
      RemoveAllIsSubseq(value, last);
      assert Occ(value, last) > 0 by { OccPositive(value, |value| - 1); }
      Outcome(Some(RemoveTag(value, last)), field)
    else if key == "," then AddTag(limits, value, field.input)
    else Outcome(None, field)
  }

  lemma {:induction false} OccPositive<T>(s: seq<T>, i: nat)
    requires i < |s|
    ensures Occ(s, s[i]) > 0
    decreases |s|
  {
    if i > 0 {
      OccPositive(s[1..], i - 1);
    }
  }

  /** The characters the paste split treats as separators: comma and `\s`. */
  predicate IsSeparator(c: char)
  {
    c == ',' || IsWhitespace(c)
  }

  const KeepsText: char -> bool := c => !IsSeparator(c)

  predicate NoSeparator(s: string)
  {
    forall i :: 0 <= i < |s| ==> !IsSeparator(s[i])
  }

  /** Length of the leading run of non-separators. */
  function RunLength(s: string): (k: nat)
    ensures k <= |s|
    ensures NoSeparator(s[..k])
    ensures k < |s| ==> IsSeparator(s[k])
    decreases |s|
  {
    if |s| == 0 || IsSeparator(s[0]) then 0
    else
      var k := 1 + RunLength(s[1..]);
      assert s[..k] == [s[0]] + s[1..][..k - 1];
      k
  }

  /**
    `split(/[,\s]+/)` followed by dropping blank pieces: the maximal runs of
    non-separator characters, in order.
   */
  function Tokens(s: string): (r: seq<string>)
    ensures forall i :: 0 <= i < |r| ==> |r[i]| > 0 && NoSeparator(r[i])
    decreases |s|
  {
    if |s| == 0 then []
    else if IsSeparator(s[0]) then Tokens(s[1..])
    else
      var k := RunLength(s);
      [s[..k]] + Tokens(s[k..])
  }

  /**
    The pieces `String.split` gives when every separator character is a cut:
    the text between consecutive separators, empty pieces included. Cutting
    at each separator rather than at each run of them only adds empty
    pieces, which the blank filter drops again.
   */
  function Pieces(s: string): (r: seq<string>)
    ensures |r| > 0
    ensures forall i :: 0 <= i < |r| ==> NoSeparator(r[i])
    decreases |s|
  {
    if |s| == 0 then [""]
    else if IsSeparator(s[0]) then [""] + Pieces(s[1..])
    else
      var p := Pieces(s[1..]);
      [[s[0]] + p[0]] + p[1..]
  }

  /** `.filter((tag) => tag.trim())`: pieces that are not blank. */
  const NonBlank: string -> bool := t => Trim(t) != ""

  /** The first piece is the leading run of non-separators; the rest start after the separator ending it. */
  lemma {:induction false} PiecesRun(s: string)
    ensures Pieces(s)[0] == s[..RunLength(s)]
    ensures Pieces(s)[1..] == if RunLength(s) < |s| then Pieces(s[RunLength(s) + 1..]) else []
    decreases |s|
  {
    if |s| > 0 && !IsSeparator(s[0]) {
      var k := RunLength(s);
      PiecesRun(s[1..]);
      assert s[1..][..k - 1] == s[1..k];
      assert [s[0]] + s[1..k] == s[..k];
      if k < |s| {
        assert s[1..][k..] == s[k + 1..];
      }
    }
  }

  /**
    `Tokens` is `split(/[,\s]+/).filter((tag) => tag.trim())`: the non-blank
    pieces between separators, so no token is ever cut inside a run of
    non-separators.
   */
  lemma {:induction false} TokensAreSplitPieces(s: string)
    ensures Tokens(s) == Filter(Pieces(s), NonBlank)
    decreases |s|
  {
    if |s| == 0 {
      assert Trim("") == "" by { TrimNoWhitespace(""); }
      FilterUnfold(Pieces(s), NonBlank);
    } else if IsSeparator(s[0]) {
      TokensAreSplitPieces(s[1..]);
      assert Trim("") == "" by { TrimNoWhitespace(""); }
      FilterUnfold(Pieces(s), NonBlank);
      assert Pieces(s)[1..] == Pieces(s[1..]);
    } else {
      var k := RunLength(s);
      var ps := Pieces(s);
      PiecesRun(s);
      TrimNoWhitespace(s[..k]);
      assert NonBlank(ps[0]);
      FilterUnfold(ps, NonBlank);
      if k < |s| {
        TokensAreSplitPieces(s[k + 1..]);
        assert s[k..][1..] == s[k + 1..];
      } else {
        assert s[k..] == [];
        assert ps[1..] == [];
      }
    }
  }

  function Concat(ss: seq<string>): string
    decreases |ss|
  {
    if |ss| == 0 then [] else ss[0] + Concat(ss[1..])
  }

  /** Splitting loses exactly the separators: the tokens spell out the rest of the text. */
  lemma {:induction false} TokensKeepText(s: string)
    ensures Concat(Tokens(s)) == Filter(s, KeepsText)
    decreases |s|
  {
    if |s| > 0 {
      if IsSeparator(s[0]) {
        TokensKeepText(s[1..]);
        assert !KeepsText(s[0]);
      } else {
        var k := RunLength(s);
        var head := s[..k];
        TokensKeepText(s[k..]);
        assert s == head + s[k..];
        FilterAppend(head, s[k..], KeepsText);
        forall x | x in head ensures KeepsText(x) {
          var i :| 0 <= i < |head| && head[i] == x;
        }
        FilterAll(head, KeepsText);
        var ts := Tokens(s);
        assert ts == [head] + Tokens(s[k..]);
        assert ts[1..] == Tokens(s[k..]);
        assert Concat(ts) == head + Concat(Tokens(s[k..]));
      }
    }
  }

  /** `tag.startsWith("#") ? tag : "#" + tag`. */
  function WithHash(tok: string): string
  {
    if StartsWith(tok, "#") then tok else "#" + tok
  }

  /** The acceptance test `handlePaste` applies to every token: the list as it was before the paste. */
  function AcceptsAgainst(limits: TagLimits, value: seq<string>): string -> bool
  {
    t => Accepts(limits, value, t)
  }

  /**
    The tags kept from the tokens at index `i` on, by a loop that accepts
    the tags `ok` holds for, each with a '#' put in front if missing, while
    `room` is positive; each kept tag uses up one unit of room.
   */
  function KeptTags(ok: string -> bool, room: int, tokens: seq<string>, i: nat): (r: seq<string>)
    requires i <= |tokens|
    ensures |r| <= Max(0, room)
    ensures |r| <= |tokens| - i
    ensures forall k :: 0 <= k < |r| ==> ok(r[k])
    decreases |tokens| - i
  {
    if i == |tokens| || room <= 0 then []
    else
      var t := WithHash(tokens[i]);
      if ok(t) then [t] + KeptTags(ok, room - 1, tokens, i + 1)
      else KeptTags(ok, room, tokens, i + 1)
  }

  /** Each token with a '#' put in front if missing. */
  function Hashed(tokens: seq<string>): (r: seq<string>)
    ensures |r| == |tokens| && forall i :: 0 <= i < |tokens| ==> r[i] == WithHash(tokens[i])
  {
    seq(|tokens|, i requires 0 <= i < |tokens| => WithHash(tokens[i]))
  }

  /**
    The loop keeps exactly the first `room` tags that pass `ok`: no accepted
    tag is skipped while room remains, and none is kept after.
   */
  lemma {:induction false} KeptTagsAreFirstAccepted(ok: string -> bool, room: int, tokens: seq<string>, i: nat)
    requires i <= |tokens|
    ensures KeptTags(ok, room, tokens, i) == Take(Filter(Hashed(tokens[i..]), ok), room)
    decreases |tokens| - i
  {
    if i < |tokens| && room > 0 {
      var h := Hashed(tokens[i..]);
      var t := WithHash(tokens[i]);
      assert h[0] == t;
      assert h[1..] == Hashed(tokens[i + 1..]);
      FilterUnfold(h, ok);
      if ok(t) {
        KeptTagsAreFirstAccepted(ok, room - 1, tokens, i + 1);
        var f := Filter(Hashed(tokens[i + 1..]), ok);
        assert Take([t] + f, room) == [t] + Take(f, room - 1);
      } else {
        KeptTagsAreFirstAccepted(ok, room, tokens, i + 1);
      }
    } else if i == |tokens| {
      assert Hashed(tokens[i..]) == [];
    }
  }

  /** The tags `handlePaste` hands to `onChange`, in order. */
  function PastedTags(limits: TagLimits, value: seq<string>, tokens: seq<string>): (r: seq<string>)
    ensures |r| <= Max(0, limits.maxTags - |value|) && |r| <= |tokens|
  {
    KeptTags(AcceptsAgainst(limits, value), limits.maxTags - |value|, tokens, 0)
  }

  /** Every pasted tag passes `validateTag` against the list as it was before the paste. */
  lemma PastedTagsAccepted(limits: TagLimits, value: seq<string>, tokens: seq<string>)
    ensures forall k :: 0 <= k < |PastedTags(limits, value, tokens)| ==> Accepts(limits, value, PastedTags(limits, value, tokens)[k])
  {
    var r := PastedTags(limits, value, tokens);
    forall k | 0 <= k < |r| ensures Accepts(limits, value, r[k]) {
      assert AcceptsAgainst(limits, value)(r[k]);
    }
  }

  /** One `onChange` call per tag, each passing the old list plus that tag. */
  function Emissions(value: seq<string>, tags: seq<string>): (r: seq<seq<string>>)
    ensures |r| == |tags| && forall i :: 0 <= i < |tags| ==> r[i] == value + [tags[i]]
  {
    seq(|tags|, i requires 0 <= i < |tags| => value + [tags[i]])
  }

  lemma EmissionsAppend(value: seq<string>, tags: seq<string>, t: string)
    ensures Emissions(value, tags + [t]) == Emissions(value, tags) + [value + [t]]
  {
  }

  /**
    The loop of `handlePaste`: for each token, stop when the list would be
    full, otherwise put a '#' in front if missing and, when the tag is
    accepted, call `onChange` with the old list plus that tag.
   */
  method PasteLoop(ok: string -> bool, value: seq<string>, maxTags: int, tokens: seq<string>)
    returns (emissions: seq<seq<string>>)
    ensures emissions == Emissions(value, KeptTags(ok, maxTags - |value|, tokens, 0))
  {
    emissions := [];
    var tags: seq<string> := [];
    var i := 0;
    while i < |tokens|
      invariant 0 <= i <= |tokens|
      invariant emissions == Emissions(value, tags)
      invariant tags + KeptTags(ok, maxTags - |value| - |tags|, tokens, i) == KeptTags(ok, maxTags - |value|, tokens, 0)
      decreases |tokens| - i
    {
      if |value| + |emissions| >= maxTags {
        assert KeptTags(ok, maxTags - |value| - |tags|, tokens, i) == [];
        break;
      }
      KeptTagsStep(ok, maxTags - |value|, tokens, i, tags);
      var tagToAdd := WithHash(tokens[i]);
      if ok(tagToAdd) {
        EmissionsAppend(value, tags, tagToAdd);
        emissions := emissions + [value + [tagToAdd]];
        tags := tags + [tagToAdd];
      }
      i := i + 1;
    }
  }

  /** One iteration of `PasteLoop` keeps its invariant. */
  lemma KeptTagsStep(ok: string -> bool, room: int, tokens: seq<string>, i: nat, tags: seq<string>)
    requires i < |tokens| && |tags| < room
    ensures var t := WithHash(tokens[i]);
      var next := if ok(t) then tags + [t] else tags;
      next + KeptTags(ok, room - |next|, tokens, i + 1) == tags + KeptTags(ok, room - |tags|, tokens, i)
  {
    var t := WithHash(tokens[i]);
    if ok(t) {
      assert KeptTags(ok, room - |tags|, tokens, i) == [t] + KeptTags(ok, room - |tags| - 1, tokens, i + 1);
    }
  }

  /**
    `handlePaste`: the arrays handed to `onChange` for a pasted text, one per
    accepted token, each the old list plus that one tag.
   */
  method HandlePaste(limits: TagLimits, value: seq<string>, text: string) returns (emissions: seq<seq<string>>)
    ensures emissions == Emissions(value, PastedTags(limits, value, Tokens(text)))
    ensures |emissions| <= Max(0, limits.maxTags - |value|)
  {
    var tokens := Tokens(text);
    var tags := PastedTags(limits, value, tokens);
    emissions := PasteLoop(AcceptsAgainst(limits, value), value, limits.maxTags, tokens);
    assert emissions == Emissions(value, tags);
  }

  /** A '#' in front of a token without separators leaves no white space in it. */
  lemma WithHashNoWhitespace(tok: string)
    requires NoSeparator(tok)
    ensures forall i :: 0 <= i < |WithHash(tok)| ==> !IsWhitespace(WithHash(tok)[i])
  {
    var t := WithHash(tok);
    forall i | 0 <= i < |t| ensures !IsWhitespace(t[i]) {
      if t != tok {
        assert t == "#" + tok;
        if i > 0 {
          assert t[i] == tok[i - 1];
        }
      }
    }
  }

  /**
    The list the parent ends up with when it stores each array it is handed:
    the last emission wins, so at most one pasted tag survives.
   */
  function PasteAsWritten(limits: TagLimits, value: seq<string>, text: string): (r: seq<string>)
    ensures |value| <= |r| <= |value| + 1
    ensures r[..|value|] == value
  {
    var tags := PastedTags(limits, value, Tokens(text));
    if |tags| == 0 then value
    else
      assert (value + [tags[|tags| - 1]])[..|value|] == value;
      value + [tags[|tags| - 1]]
  }

  /**
    The evidently intended paste: each token is validated against the list
    built so far and appended to it, until the list is full.
   */
  function PasteTags(limits: TagLimits, acc: seq<string>, tokens: seq<string>): (r: seq<string>)
    ensures |r| >= |acc| && r[..|acc|] == acc
    decreases |tokens|
  {
    if |tokens| == 0 || |acc| >= limits.maxTags then acc
    else
      var t := WithHash(tokens[0]);
      if Accepts(limits, acc, t) then
        var r := PasteTags(limits, acc + [t], tokens[1..]);
        ExtendedPrefix(r, acc, t);
        r
      else PasteTags(limits, acc, tokens[1..])
  }

  /** The corrected paste stays within `maxTags` (or the starting length, when that is already larger). */
  lemma {:induction false} PasteTagsBounded(limits: TagLimits, acc: seq<string>, tokens: seq<string>)
    ensures |PasteTags(limits, acc, tokens)| <= Max(|acc|, limits.maxTags)
    decreases |tokens|
  {
    if |tokens| > 0 && |acc| < limits.maxTags {
      var t := WithHash(tokens[0]);
      if Accepts(limits, acc, t) {
        PasteTagsBounded(limits, acc + [t], tokens[1..]);
      } else {
        PasteTagsBounded(limits, acc, tokens[1..]);
      }
    }
  }

  /** Pasting `a + b` is pasting `a`, then pasting `b` onto the result. */
  lemma {:induction false} PasteTagsAppend(limits: TagLimits, acc: seq<string>, a: seq<string>, b: seq<string>)
    ensures PasteTags(limits, acc, a + b) == PasteTags(limits, PasteTags(limits, acc, a), b)
    decreases |a|
  {
    if |a| == 0 {
      assert a + b == b;
    } else if |acc| < limits.maxTags {
      assert (a + b)[0] == a[0] && (a + b)[1..] == a[1..] + b;
      var t := WithHash(a[0]);
      if Accepts(limits, acc, t) {
        PasteTagsAppend(limits, acc + [t], a[1..], b);
      } else {
        PasteTagsAppend(limits, acc, a[1..], b);
      }
    }
  }

  /**
    The corrected paste, one token at a time: the token's tag is appended
    exactly when it passes `validateTag` against the list built from the
    tokens before it (the room check included); otherwise the list stays.
   */
  lemma PasteTagsSnoc(limits: TagLimits, acc: seq<string>, tokens: seq<string>, tok: string)
    ensures var p := PasteTags(limits, acc, tokens);
      PasteTags(limits, acc, tokens + [tok]) == if Accepts(limits, p, WithHash(tok)) then p + [WithHash(tok)] else p
  {
    PasteTagsAppend(limits, acc, tokens, [tok]);
    var p := PasteTags(limits, acc, tokens);
    assert [tok][1..] == [];
    if Accepts(limits, p, WithHash(tok)) {
      assert PasteTags(limits, p + [WithHash(tok)], []) == p + [WithHash(tok)];
    }
  }

  /** Every tag of `r` from position `from` on matches the tag pattern and fits the length limit. */
  predicate ValidFrom(limits: TagLimits, r: seq<string>, from: nat)
  {
    forall i :: from <= i < |r| ==> MatchesTagPattern(r[i]) && |r[i]| <= limits.maxLength
  }

  /** Every tag the corrected paste adds matches the tag pattern and fits the length limit. */
  lemma {:induction false} PasteTagsShape(limits: TagLimits, acc: seq<string>, tokens: seq<string>)
    requires forall i :: 0 <= i < |tokens| ==> NoSeparator(tokens[i])
    ensures ValidFrom(limits, PasteTags(limits, acc, tokens), |acc|)
    decreases |tokens|
  {
    if |tokens| > 0 && |acc| < limits.maxTags {
      var t := WithHash(tokens[0]);
      if Accepts(limits, acc, t) {
        PasteTagsShape(limits, acc + [t], tokens[1..]);
        AcceptedStepValid(limits, acc, tokens);
      } else {
        PasteTagsShape(limits, acc, tokens[1..]);
      }
    }
  }

  /** The accepted first tag is valid, so validity of the rest carries over to the whole. */
  lemma AcceptedStepValid(limits: TagLimits, acc: seq<string>, tokens: seq<string>)
    requires |tokens| > 0 && NoSeparator(tokens[0]) && |acc| < limits.maxTags
    requires Accepts(limits, acc, WithHash(tokens[0]))
    requires ValidFrom(limits, PasteTags(limits, acc + [WithHash(tokens[0])], tokens[1..]), |acc| + 1)
    ensures ValidFrom(limits, PasteTags(limits, acc, tokens), |acc|)
  {
    var t := WithHash(tokens[0]);
    AcceptedToken(limits, acc, tokens[0]);
    var r := PasteTags(limits, acc, tokens);
    var rest := PasteTags(limits, acc + [t], tokens[1..]);
    assert r == rest;
    ExtendedPrefix(r, acc, t);
    forall i | |acc| <= i < |r| ensures MatchesTagPattern(r[i]) && |r[i]| <= limits.maxLength {
      if i == |acc| {
        assert r[i] == t;
      } else {
        assert r[i] == rest[i];
      }
    }
  }

  /** The corrected paste keeps a case-insensitively unique list unique. */
  lemma {:induction false} PasteTagsUnique(limits: TagLimits, acc: seq<string>, tokens: seq<string>)
    requires forall i :: 0 <= i < |tokens| ==> NoSeparator(tokens[i])
    requires CaseInsensitiveUnique(acc)
    ensures CaseInsensitiveUnique(PasteTags(limits, acc, tokens))
    decreases |tokens|
  {
    if |tokens| > 0 && |acc| < limits.maxTags {
      var t := WithHash(tokens[0]);
      if Accepts(limits, acc, t) {
        AcceptedToken(limits, acc, tokens[0]);
        PasteTagsUnique(limits, acc + [t], tokens[1..]);
      } else {
        PasteTagsUnique(limits, acc, tokens[1..]);
      }
    }
  }

  /** What accepting a token's tag tells about the tag and about the list it joins. */
  lemma AcceptedToken(limits: TagLimits, acc: seq<string>, tok: string)
    requires NoSeparator(tok) && Accepts(limits, acc, WithHash(tok))
    ensures var t := WithHash(tok);
      && MatchesTagPattern(t) && |t| <= limits.maxLength && |acc| < limits.maxTags
      && (CaseInsensitiveUnique(acc) ==> CaseInsensitiveUnique(acc + [t]))
  {
    var t := WithHash(tok);
    WithHashNoWhitespace(tok);
    TrimNoWhitespace(t);
    AcceptedTagShape(limits, acc, t);
    if CaseInsensitiveUnique(acc) {
      AppendKeepsUnique(acc, t);
    }
  }

  /** The intended paste result for a pasted text. */
  function PasteIntended(limits: TagLimits, value: seq<string>, text: string): (r: seq<string>)
    ensures |r| >= |value| && r[..|value|] == value
    ensures |r| <= Max(|value|, limits.maxTags)
    ensures forall i :: |value| <= i < |r| ==> MatchesTagPattern(r[i]) && |r[i]| <= limits.maxLength
    ensures CaseInsensitiveUnique(value) ==> CaseInsensitiveUnique(r)
  {
    PasteTagsBounded(limits, value, Tokens(text));
    PasteTagsShape(limits, value, Tokens(text));
    assert CaseInsensitiveUnique(value) ==> CaseInsensitiveUnique(PasteTags(limits, value, Tokens(text))) by {
      if CaseInsensitiveUnique(value) {
        PasteTagsUnique(limits, value, Tokens(text));
      }
    }
    PasteTags(limits, value, Tokens(text))
  }

  /** With a single token the two readings agree: the defect needs two or more tags. */
  lemma SingleTokenAgrees(limits: TagLimits, value: seq<string>, text: string)
    requires |Tokens(text)| == 1
    ensures PasteAsWritten(limits, value, text) == PasteIntended(limits, value, text)
  {
    var tokens := Tokens(text);
    PastedOne(limits, value, tokens);
    PasteTagsOne(limits, value, tokens);
  }

  /** `handlePaste`'s loop over one token keeps it when there is room and it is accepted. */
  lemma PastedOne(limits: TagLimits, value: seq<string>, tokens: seq<string>)
    requires |tokens| == 1
    ensures var t := WithHash(tokens[0]);
      PastedTags(limits, value, tokens) == (if |value| < limits.maxTags && Accepts(limits, value, t) then [t] else [])
  {
    var ok := AcceptsAgainst(limits, value);
    var t := WithHash(tokens[0]);
    if |value| < limits.maxTags {
      assert ok(t) == Accepts(limits, value, t);
      if ok(t) {
        assert KeptTags(ok, limits.maxTags - |value| - 1, tokens, 1) == [];
      } else {
        assert KeptTags(ok, limits.maxTags - |value|, tokens, 1) == [];
      }
    }
  }

  /** The intended paste of one token appends it when there is room and it is accepted. */
  lemma PasteTagsOne(limits: TagLimits, acc: seq<string>, tokens: seq<string>)
    requires |tokens| == 1 && NoSeparator(tokens[0])
    ensures var t := WithHash(tokens[0]);
      PasteTags(limits, acc, tokens) == (if |acc| < limits.maxTags && Accepts(limits, acc, t) then acc + [t] else acc)
  {
    var t := WithHash(tokens[0]);
    assert tokens[1..] == [];
    assert PasteTags(limits, acc, []) == acc;
    if |acc| < limits.maxTags && Accepts(limits, acc, t) {
      assert PasteTags(limits, acc + [t], []) == acc + [t];
    }
  }

  /** "#a #b" splits into the two tags. */
  lemma TwoTokens()
    ensures Tokens("#a #b") == ["#a", "#b"]
  {
    assert RunLength("#b") == 2;
    assert "#b"[..2] == "#b" && "#b"[2..] == [];
    assert Tokens("#b") == ["#b"];
    assert " #b"[1..] == "#b";
    assert Tokens(" #b") == ["#b"];
    assert RunLength("#a #b") == 2;
    assert "#a #b"[..2] == "#a" && "#a #b"[2..] == " #b";
  }

  lemma TagsValid()
    ensures Accepts(DefaultLimits, [], "#a")
    ensures Accepts(DefaultLimits, [], "#b")
    ensures Accepts(DefaultLimits, ["#a"], "#b")
  {
    TrimNoWhitespace("#a");
    TrimNoWhitespace("#b");
    assert Lower("#b") == "#b" && Lower("#a") == "#a";
    assert LowerAll(["#a"]) == ["#a"];
  }

  /** Pasting "#a #b" into an empty list emits ["#a"] and then ["#b"]. */
  lemma TwoTagsEmitted()
    ensures PastedTags(DefaultLimits, [], ["#a", "#b"]) == ["#a", "#b"]
  {
    TagsValid();
    var ok := AcceptsAgainst(DefaultLimits, []);
    var tokens := ["#a", "#b"];
    assert WithHash("#a") == "#a" && WithHash("#b") == "#b";
    assert ok("#a") && ok("#b");
    assert KeptTags(ok, 8, tokens, 2) == [];
    assert KeptTags(ok, 9, tokens, 1) == ["#b"];
    assert KeptTags(ok, 10, tokens, 0) == ["#a"] + ["#b"];
  }

  lemma SecondTagIntended()
    ensures PasteTags(DefaultLimits, ["#a"], ["#b"]) == ["#a", "#b"]
  {
    TagsValid();
    assert WithHash("#b") == "#b";
    assert ["#b"][1..] == [];
    assert ["#a"] + ["#b"] == ["#a", "#b"];
    assert PasteTags(DefaultLimits, ["#a", "#b"], []) == ["#a", "#b"];
  }

  /** Validating each tag against the growing list keeps both. */
  lemma TwoTagsIntended()
    ensures PasteTags(DefaultLimits, [], ["#a", "#b"]) == ["#a", "#b"]
  {
    TagsValid();
    SecondTagIntended();
    assert WithHash("#a") == "#a";
    assert ["#a", "#b"][1..] == ["#b"];
    assert [] + ["#a"] == ["#a"];
  }

  /** Pasting "#a #b" into an empty list: only "#b" is kept, where both were meant to be. */
  lemma PasteKeepsOnlyLastTag()
    ensures PasteAsWritten(DefaultLimits, [], "#a #b") == ["#b"]
    ensures PasteIntended(DefaultLimits, [], "#a #b") == ["#a", "#b"]
  {
    TwoTokens();
    TwoTagsEmitted();
    TwoTagsIntended();
  }
}
