/** printbuffer: the printer of packages/cJSON-v1.7.17/cJSON.c as it fills a buffer that grows.

    Every printing method takes the text that is still to come, `rest`, as a ghost parameter: what
    is in the buffer followed by `rest` is then the same bytes before and after a step. */
module JsonPrinter {
  import opened CString
  import opened Json
  import opened JsonText

  const DEFAULT_SIZE: nat := 256

  /** How many bytes a text has in front of `rest`. */
  function Size(text: Str, rest: Str): int {
    Length(text) - Length(rest)
  }

  /** `t` is at the beginning of `a`. */
  ghost predicate Holds(a: array<int>, t: seq<int>)
    reads a
  {
    |t| <= a.Length && forall i :: 0 <= i < |t| ==> a[i] == t[i]
  }

  class PrintBuffer {
    var buffer: array<int>
    var offset: nat
    var depth: nat
    const noalloc: bool
    const format: bool
    ghost var text: seq<int> // what has been printed, up to the NUL that closes it

    constructor (buffer: array<int>, noalloc: bool, format: bool)
      requires buffer.Length <= INT_MAX
      ensures Valid() && this.buffer == buffer && offset == 0 && depth == 0 && text == []
      ensures this.noalloc == noalloc && this.format == format
    {
      this.buffer, this.noalloc, this.format := buffer, noalloc, format;
      offset, depth, text := 0, 0, [];
    }

    ghost predicate Valid()
      reads this, buffer
    {
      && Bounded()
      && offset <= |text| && (buffer.Length > 0 ==> |text| < buffer.Length)
      && Holds(buffer, text)
    }

    ghost predicate Bounded()
      reads this
    {
      offset <= buffer.Length <= INT_MAX
    }

    /** `offset` is behind what has been printed. */
    ghost predicate Settled()
      reads this
    {
      offset == |text|
    }

    /** What has been printed ends with a NUL. */
    ghost predicate Closed()
      reads this, buffer
    {
      |text| < buffer.Length && buffer[|text|] == 0
    }

    /** How large the buffer can become. */
    ghost function Capacity(): nat
      reads this
    {
      if noalloc then buffer.Length else INT_MAX
    }

    /** Makes room for `needed` more bytes and a NUL. What was written stays. */
    method Ensure(needed: nat) returns (ok: bool)
      requires Bounded()
      modifies this`buffer
      ensures Bounded() && Capacity() == old(Capacity())
      ensures buffer == old(buffer) || (!noalloc && fresh(buffer))
      ensures forall i :: 0 <= i < offset ==> buffer[i] == old(buffer[i])
      ensures ok <==> (old(buffer.Length) > 0 ==> offset < old(buffer.Length)) && offset + needed + 1 <= Capacity()
      ensures ok ==> offset + needed + 1 <= buffer.Length
    {
      if buffer.Length > 0 && offset >= buffer.Length { return false; }
      if needed > INT_MAX { return false; }
      var total := needed + offset + 1;
      if total <= buffer.Length { return true; }
      if noalloc { return false; }
      var newsize: nat;
      if total > INT_MAX / 2 {
        if total > INT_MAX { return false; }
        newsize := INT_MAX;
      } else {
        newsize := total * 2;
      }
      var larger := new int[newsize];
      var older := buffer;
      for i := 0 to older.Length
        invariant forall k :: 0 <= k < i ==> larger[k] == older[k]
      {
        larger[i] := older[i];
      }
      buffer := larger;
      ok := true;
    }

    /** update_offset: steps over what the last value left behind `offset`. */
    method UpdateOffset()
      requires Valid() && Closed()
      requires forall i :: offset <= i < |text| ==> text[i] != 0
      modifies this`offset
      ensures Valid() && Settled()
    {
      while buffer[offset] != 0
        invariant offset <= |text|
        decreases |text| - offset
      {
        assert offset < |text|;
        offset := offset + 1;
      }
    }

    /** strcpy without the NUL. */
    method Store(at: nat, w: Str, ghost before: seq<int>, ghost rest: Str) returns (end: nat, ghost after: seq<int>)
      requires at + Length(w) < buffer.Length && Holds(buffer, before) && |before| == at
      modifies buffer
      ensures end == |after| == at + Length(w) && Holds(buffer, after)
      ensures after + Raw(rest) == before + Raw(Append(w, rest))
    {
      var left := w;
      end, after := at, before;
      while left.Ch?
        invariant end == |after| && end + Length(left) == at + Length(w) && Holds(buffer, after)
        invariant after + Raw(Append(left, rest)) == before + Raw(Append(w, rest))
        decreases left
      {
        PutByte(after, left.c, Append(left.rest, rest));
        buffer[end] := left.c;
        after := after + [left.c];
        end, left := end + 1, left.rest;
      }
    }

    method StoreTabs(at: nat, n: nat, ghost before: seq<int>, ghost rest: Str) returns (end: nat, ghost after: seq<int>)
      requires at + n < buffer.Length && Holds(buffer, before) && |before| == at
      modifies buffer
      ensures end == |after| == at + n && Holds(buffer, after)
      ensures after + Raw(rest) == before + Raw(TabsTo(n, rest))
    {
      end, after := at, before;
      for i := 0 to n
        invariant end == |after| == at + i && Holds(buffer, after)
        invariant after + Raw(TabsTo(n - i, rest)) == before + Raw(TabsTo(n, rest))
      {
        PutByte(after, TAB, TabsTo(n - i - 1, rest));
        buffer[end] := TAB;
        after := after + [TAB];
        end := end + 1;
      }
    }

    /** Text in the middle of an array or an object: `w`, with `extra` bytes of room behind it. */
    method Emit(w: Str, extra: nat, ghost rest: Str) returns (ok: bool)
      requires Valid() && Settled()
      modifies this`buffer, this`offset, this`text, buffer
      ensures Bounded() && Capacity() == old(Capacity()) && (buffer == old(buffer) || (!noalloc && fresh(buffer)))
      ensures ok <==> old(offset) + Length(w) + extra + 1 <= Capacity()
      ensures ok ==> Valid() && Settled() && offset == old(offset) + Length(w)
      ensures ok ==> text + Raw(rest) == old(text) + Raw(Append(w, rest))
    {
      ok := Ensure(Length(w) + extra);
      if ok {
        offset, text := Store(offset, w, text, rest);
        if extra > 0 { buffer[offset] := 0; }
      }
    }

    /** The indentation in front of a name. */
    method EmitTabs(ghost rest: Str) returns (ok: bool)
      requires Valid() && Settled()
      modifies this`buffer, this`offset, this`text, buffer
      ensures Bounded() && Capacity() == old(Capacity()) && (buffer == old(buffer) || (!noalloc && fresh(buffer)))
      ensures ok <==> old(offset) + depth + 1 <= Capacity()
      ensures ok ==> Valid() && Settled() && offset == old(offset) + depth
      ensures ok ==> text + Raw(rest) == old(text) + Raw(TabsTo(depth, rest))
    {
      ok := Ensure(depth);
      if ok {
        offset, text := StoreTabs(offset, depth, text, rest);
      }
    }

    /** Text at the end of a value, closed by a NUL: `offset` stays in front of it. */
    method Finish(w: Str, ghost rest: Str) returns (ok: bool)
      requires Valid() && Settled()
      modifies this`buffer, this`text, buffer
      ensures Bounded() && Capacity() == old(Capacity()) && (buffer == old(buffer) || (!noalloc && fresh(buffer)))
      ensures ok <==> offset + Length(w) + 2 <= Capacity()
      ensures ok ==> Valid() && Closed() && |text| == offset + Length(w)
      ensures ok ==> text + Raw(rest) == old(text) + Raw(Append(w, rest))
    {
      ok := Ensure(Length(w) + 1);
      if ok {
        var last;
        last, text := Store(offset, w, text, rest);
        buffer[last] := 0;
      }
    }

    /** print_number on the `%d` path. */
    method PrintNumber(n: int, ghost rest: Str) returns (ok: bool)
      requires Valid() && Settled()
      modifies this`buffer, this`offset, this`text, buffer
      ensures Bounded() && Capacity() == old(Capacity()) && (buffer == old(buffer) || (!noalloc && fresh(buffer)))
      ensures ok <==> old(offset) + Size(NumberTo(n, rest), rest) + 2 <= Capacity()
      ensures ok ==> Valid() && Closed() && offset >= old(offset)
      ensures ok ==> text + Raw(rest) == old(text) + Raw(NumberTo(n, rest))
    {
      NumberAppend(n, rest);
      var number := NumberTo(n, End);
      ok := Finish(number, rest);
      if ok { offset := offset + Length(number); }
    }

    /** The copying loop of print_string_ptr. */
    method StoreEscaped(at: nat, s: Str, ghost before: seq<int>, ghost rest: Str) returns (end: nat, ghost after: seq<int>)
      requires at + EscapedLength(s) < buffer.Length && Holds(buffer, before) && |before| == at
      modifies buffer
      ensures end == |after| == at + EscapedLength(s) && Holds(buffer, after)
      ensures after + Raw(rest) == before + Raw(EscapeTo(s, rest))
    {
      var input := s;
      end, after := at, before;
      while input.Ch?
        invariant end == |after| && end + EscapedLength(input) == at + EscapedLength(s) && Holds(buffer, after)
        invariant after + Raw(EscapeTo(input, rest)) == before + Raw(EscapeTo(s, rest))
        decreases input
      {
        EscapeByteAppend(input.c, EscapeTo(input.rest, rest));
        end, after := Store(end, EscapeByteTo(input.c, End), after, EscapeTo(input.rest, rest));
        input := input.rest;
      }
    }

    /** print_string_ptr: the length it computes first is the length it writes. */
    method PrintString(s: Str, ghost rest: Str) returns (ok: bool)
      requires Valid() && Settled()
      modifies this`buffer, this`text, buffer
      ensures Bounded() && Capacity() == old(Capacity()) && (buffer == old(buffer) || (!noalloc && fresh(buffer)))
      ensures ok <==> offset + Size(StringTo(s, rest), rest) + 2 <= Capacity()
      ensures ok ==> Valid() && Closed()
      ensures ok ==> text + Raw(rest) == old(text) + Raw(StringTo(s, rest))
    {
      var length, escapes := CountEscapes(s);
      EscapeSize(s, Ch(QUOTE, rest));
      ok := Ensure(length + 3);
      if ok {
        text := StoreQuoted(offset, s, length, escapes, text, rest);
        buffer[offset + length + 2] := 0;
      }
    }

    /** The string between its quotes, with or without escapes. */
    method StoreQuoted(at: nat, s: Str, length: nat, escapes: nat, ghost before: seq<int>, ghost rest: Str)
      returns (ghost after: seq<int>)
      requires at + length + 2 < buffer.Length && length == EscapedLength(s) && escapes == length - Length(s)
      requires Holds(buffer, before) && |before| == at
      modifies buffer
      ensures |after| == at + length + 2 && Holds(buffer, after)
      ensures after + Raw(rest) == before + Raw(StringTo(s, rest))
    {
      AppendOne(QUOTE, EscapeTo(s, Ch(QUOTE, rest)));
      AppendOne(QUOTE, rest);
      var end;
      end, after := Store(at, Ch(QUOTE, End), before, EscapeTo(s, Ch(QUOTE, rest)));
      if escapes == 0 {
        NoEscapes(s, Ch(QUOTE, rest));
        end, after := Store(end, s, after, Ch(QUOTE, rest));
      } else {
        end, after := StoreEscaped(end, s, after, Ch(QUOTE, rest));
      }
      end, after := Store(at + length + 1, Ch(QUOTE, End), after, rest);
    }

    /** print_value: the text of `t` is in the buffer up to a NUL; `offset` may stay behind.
        It succeeds exactly when the text and two more bytes fit. */
    method PrintValue(t: Json, ghost rest: Str) returns (ok: bool)
      requires Valid() && Settled()
      modifies this, buffer
      ensures Bounded() && Capacity() == old(Capacity()) && (buffer == old(buffer) || (!noalloc && fresh(buffer)))
      ensures ok <==> old(offset) + Size(RenderTo(t, format, old(depth), rest), rest) + 2 <= Capacity()
      ensures ok ==> Valid() && Closed() && old(offset) <= offset && depth == old(depth)
      ensures ok ==> text + Raw(rest) == old(text) + Raw(RenderTo(t, format, old(depth), rest))
      decreases t, 0
    {
      match t {
        case Null => KeywordsAppend(rest); ok := Finish(NullTo(End), rest);
        case False => KeywordsAppend(rest); ok := Finish(FalseTo(End), rest);
        case True => KeywordsAppend(rest); ok := Finish(TrueTo(End), rest);
        case Number(n) => ok := PrintNumber(n, rest);
        case String(s) => ok := PrintString(s, rest);
        case Array(items) => ok := PrintArray(items, rest);
        case Object(members) => ok := PrintObject(members, rest);
      }
    }

    /** print_value and update_offset. */
    method PrintElement(t: Json, ghost rest: Str) returns (ok: bool)
      requires Valid() && Settled()
      modifies this, buffer
      ensures Bounded() && Capacity() == old(Capacity()) && (buffer == old(buffer) || (!noalloc && fresh(buffer)))
      ensures ok <==> old(offset) + Size(RenderTo(t, format, old(depth), rest), rest) + 2 <= Capacity()
      ensures ok ==> Valid() && Settled() && depth == old(depth)
      ensures ok ==> offset == old(offset) + Size(RenderTo(t, format, depth, rest), rest)
      ensures ok ==> text + Raw(rest) == old(text) + Raw(RenderTo(t, format, old(depth), rest))
      decreases t, 1
    {
      ok := PrintValue(t, rest);
      if ok {
        NoNul(old(text), text, RenderTo(t, format, depth, rest), rest);
        UpdateOffset();
      }
    }

    /** print_string_ptr on a name, and update_offset. */
    method PrintName(s: Str, ghost rest: Str) returns (ok: bool)
      requires Valid() && Settled()
      modifies this`buffer, this`offset, this`text, buffer
      ensures Bounded() && Capacity() == old(Capacity()) && (buffer == old(buffer) || (!noalloc && fresh(buffer)))
      ensures ok <==> old(offset) + Size(StringTo(s, rest), rest) + 2 <= Capacity()
      ensures ok ==> Valid() && Settled() && offset == old(offset) + Size(StringTo(s, rest), rest)
      ensures ok ==> text + Raw(rest) == old(text) + Raw(StringTo(s, rest))
    {
      ok := PrintString(s, rest);
      if ok {
        NoNul(old(text), text, StringTo(s, rest), rest);
        UpdateOffset();
      }
    }

    method PrintArray(items: Items, ghost rest: Str) returns (ok: bool)
      requires Valid() && Settled()
      modifies this, buffer
      ensures Bounded() && Capacity() == old(Capacity()) && (buffer == old(buffer) || (!noalloc && fresh(buffer)))
      ensures ok <==> old(offset) + Size(RenderTo(Array(items), format, old(depth), rest), rest) + 2 <= Capacity()
      ensures ok ==> Valid() && Closed() && old(offset) <= offset && depth == old(depth)
      ensures ok ==> text + Raw(rest) == old(text) + Raw(RenderTo(Array(items), format, old(depth), rest))
      decreases items, 2
    {
      ghost var close := Ch(RBRACKET, rest);
      ArrayText(items, format, depth, rest);
      ok := Emit(Ch(LBRACKET, End), 0, ItemsTo(items, format, depth + 1, close));
      if !ok { return; }
      depth := depth + 1;
      ok := PrintItems(items, close);
      if !ok { return; }
      ok := Finish(Ch(RBRACKET, End), rest);
      depth := depth - 1;
    }

    /** The loop of print_array. */
    method PrintItems(items: Items, ghost close: Str) returns (ok: bool)
      requires Valid() && Settled()
      modifies this, buffer
      ensures Bounded() && Capacity() == old(Capacity()) && (buffer == old(buffer) || (!noalloc && fresh(buffer)))
      ensures !ok ==> old(offset) + Size(ItemsTo(items, format, old(depth), close), close) + 2 > Capacity()
      ensures ok ==> Valid() && Settled() && depth == old(depth)
      ensures ok ==> offset == old(offset) + Size(ItemsTo(items, format, depth, close), close)
      ensures ok ==> text + Raw(close) == old(text) + Raw(ItemsTo(items, format, depth, close))
      decreases items, 1
    {
      var current := items;
      ok := true;
      while current.Item?
        invariant Valid() && Settled() && Capacity() == old(Capacity()) && (buffer == old(buffer) || (!noalloc && fresh(buffer)))
        invariant ok && depth == old(depth)
        invariant offset + Length(ItemsTo(current, format, depth, close))
               == old(offset) + Length(ItemsTo(items, format, depth, close))
        invariant text + Raw(ItemsTo(current, format, depth, close))
               == old(text) + Raw(ItemsTo(items, format, depth, close))
        invariant current == items || current < items
        decreases current
      {
        ok := PrintItem(current, close);
        if !ok { return; }
        current := current.tail;
      }
    }

    /** An element of an array, and the comma behind it. */
    method PrintItem(items: Items, ghost close: Str) returns (ok: bool)
      requires Valid() && Settled() && items.Item?
      modifies this, buffer
      ensures Bounded() && Capacity() == old(Capacity()) && (buffer == old(buffer) || (!noalloc && fresh(buffer)))
      ensures !ok ==> old(offset) + Size(ItemsTo(items, format, old(depth), close), close) + 2 > Capacity()
      ensures ok ==> Valid() && Settled() && depth == old(depth)
      ensures ok ==> offset + Length(ItemsTo(items.tail, format, depth, close))
                     == old(offset) + Length(ItemsTo(items, format, depth, close))
      ensures ok ==> text + Raw(ItemsTo(items.tail, format, depth, close))
                     == old(text) + Raw(ItemsTo(items, format, depth, close))
      decreases items, 0
    {
      ghost var more := ItemsTo(items.tail, format, depth, close);
      ghost var gap := if items.tail.NoItems? then close else ItemGapTo(format, more);
      ItemsGrow(items.tail, format, depth, close);
      CommaText(format, more);
      ok := PrintElement(items.head, gap);
      if ok && items.tail.Item? {
        ok := Emit(Comma(format), 1, more);
      }
    }

    method PrintObject(members: Members, ghost rest: Str) returns (ok: bool)
      requires Valid() && Settled()
      modifies this, buffer
      ensures Bounded() && Capacity() == old(Capacity()) && (buffer == old(buffer) || (!noalloc && fresh(buffer)))
      ensures ok <==> old(offset) + Size(RenderTo(Object(members), format, old(depth), rest), rest) + 2 <= Capacity()
      ensures ok ==> Valid() && Closed() && old(offset) <= offset && depth == old(depth)
      ensures ok ==> text + Raw(rest) == old(text) + Raw(RenderTo(Object(members), format, old(depth), rest))
      decreases members, 2
    {
      ghost var close := IndentTo(format, depth, Ch(RBRACE, rest));
      ObjectText(members, format, depth, rest);
      ok := Emit(OpenObject(format), 1, MembersTo(members, format, depth + 1, close));
      if !ok { return; }
      depth := depth + 1;
      ok := PrintMembers(members, close);
      if !ok { return; }
      ok := CloseObject(rest);
    }

    /** The closing brace, in front of it the indentation of the object. */
    method CloseObject(ghost rest: Str) returns (ok: bool)
      requires Valid() && Settled() && depth > 0
      modifies this, buffer
      ensures Bounded() && Capacity() == old(Capacity()) && (buffer == old(buffer) || (!noalloc && fresh(buffer)))
      ensures ok <==> old(offset) + Size(IndentTo(format, old(depth) - 1, Ch(RBRACE, rest)), rest) + 2 <= Capacity()
      ensures ok ==> Valid() && Closed() && offset == old(offset) && depth == old(depth) - 1
      ensures ok ==> text + Raw(rest) == old(text) + Raw(IndentTo(format, old(depth) - 1, Ch(RBRACE, rest)))
    {
      TabsSize(depth - 1, Ch(RBRACE, rest));
      AppendOne(RBRACE, rest);
      ok := Ensure(if format then depth + 1 else 2);
      if !ok { return; }
      var last := offset;
      if format { last, text := StoreTabs(last, depth - 1, text, Ch(RBRACE, rest)); }
      last, text := Store(last, Ch(RBRACE, End), text, rest);
      buffer[last] := 0;
      depth := depth - 1;
    }

    /** The loop of print_object. */
    method PrintMembers(members: Members, ghost close: Str) returns (ok: bool)
      requires Valid() && Settled()
      modifies this, buffer
      ensures Bounded() && Capacity() == old(Capacity()) && (buffer == old(buffer) || (!noalloc && fresh(buffer)))
      ensures !ok ==> old(offset) + Size(MembersTo(members, format, old(depth), close), close) + 2 > Capacity()
      ensures ok ==> Valid() && Settled() && depth == old(depth)
      ensures ok ==> offset == old(offset) + Size(MembersTo(members, format, depth, close), close)
      ensures ok ==> text + Raw(close) == old(text) + Raw(MembersTo(members, format, depth, close))
      decreases members, 1
    {
      var current := members;
      ok := true;
      while current.Member?
        invariant Valid() && Settled() && Capacity() == old(Capacity()) && (buffer == old(buffer) || (!noalloc && fresh(buffer)))
        invariant ok && depth == old(depth)
        invariant offset + Length(MembersTo(current, format, depth, close))
               == old(offset) + Length(MembersTo(members, format, depth, close))
        invariant text + Raw(MembersTo(current, format, depth, close))
               == old(text) + Raw(MembersTo(members, format, depth, close))
        invariant current == members || current < members
        decreases current
      {
        ok := PrintMember(current, close);
        if !ok { return; }
        current := current.others;
      }
    }

    /** Indentation, name and colon of a member. */
    method PrintKey(key: Str, ghost rest: Str) returns (ok: bool)
      requires Valid() && Settled()
      modifies this, buffer
      ensures Bounded() && Capacity() == old(Capacity()) && (buffer == old(buffer) || (!noalloc && fresh(buffer)))
      ensures !ok ==> old(offset) + Size(KeyTo(key, format, old(depth), rest), rest) + 2 > Capacity()
      ensures ok ==> Valid() && Settled() && depth == old(depth) && offset == old(offset) + Size(KeyTo(key, format, depth, rest), rest)
      ensures ok ==> text + Raw(rest) == old(text) + Raw(KeyTo(key, format, depth, rest))
    {
      ghost var colon := Ch(COLON, if format then Ch(TAB, rest) else rest);
      EscapeSize(key, Ch(QUOTE, colon));
      if format {
        TabsSize(depth, StringTo(key, colon));
        ok := EmitTabs(StringTo(key, colon));
        if !ok { return; }
      }
      ok := PrintName(key, colon);
      if !ok { return; }
      AppendOne(COLON, rest);
      AppendTwo(COLON, TAB, rest);
      ok := Emit(if format then Ch(COLON, Ch(TAB, End)) else Ch(COLON, End), 0, rest);
    }

    /** A member of an object, and what separates it from the next. */
    method PrintMember(members: Members, ghost close: Str) returns (ok: bool)
      requires Valid() && Settled() && members.Member?
      modifies this, buffer
      ensures Bounded() && Capacity() == old(Capacity()) && (buffer == old(buffer) || (!noalloc && fresh(buffer)))
      ensures !ok ==> old(offset) + Size(MembersTo(members, format, old(depth), close), close) + 2 > Capacity()
      ensures ok ==> Valid() && Settled() && depth == old(depth)
      ensures ok ==> offset + Length(MembersTo(members.others, format, depth, close))
                     == old(offset) + Length(MembersTo(members, format, depth, close))
      ensures ok ==> text + Raw(MembersTo(members.others, format, depth, close))
                     == old(text) + Raw(MembersTo(members, format, depth, close))
      decreases members, 0
    {
      ghost var more := MembersTo(members.others, format, depth, close);
      ghost var gap := MemberGapTo(members.others.NoMembers?, format, more);
      ghost var value := RenderTo(members.value, format, depth, gap);
      MembersGrow(members.others, format, depth, close);
      RenderGrows(members.value, format, depth, gap);
      ok := PrintKey(members.key, value);
      if !ok { return; }
      ok := PrintElement(members.value, gap);
      if !ok { return; }
      ok := Separate(members.others.Member?, more);
    }

    /** A comma unless the member is the last, and a line break in formatted text. */
    method Separate(next: bool, ghost more: Str) returns (ok: bool)
      requires Valid() && Settled()
      modifies this`buffer, this`offset, this`text, buffer
      ensures Bounded() && Capacity() == old(Capacity()) && (buffer == old(buffer) || (!noalloc && fresh(buffer)))
      ensures ok <==> old(offset) + Size(MemberGapTo(!next, format, more), more) + 2 <= Capacity()
      ensures ok ==> Valid() && Settled() && offset == old(offset) + Size(MemberGapTo(!next, format, more), more)
      ensures ok ==> text + Raw(more) == old(text) + Raw(MemberGapTo(!next, format, more))
    {
      SeparatorText(!next, format, more);
      ok := Emit(Separator(!next, format), 1, more);
    }
  }

  lemma PutByte(before: seq<int>, c: byte, rest: Str)
    ensures before + [c] + Raw(rest) == before + Raw(Ch(c, rest))
  {
  }

  lemma NoNul(before: seq<int>, b: seq<int>, text: Str, rest: Str)
    requires b + Raw(rest) == before + Raw(text)
    ensures forall i :: |before| <= i < |b| ==> b[i] != 0
  {
    RawIsBytes(text);
    forall i | |before| <= i < |b| ensures b[i] != 0 {
      assert b[i] == (before + Raw(text))[i];
    }
  }

  lemma {:induction false} AppendLength(s: Str, t: Str)
    ensures Length(Append(s, t)) == Length(s) + Length(t)
  {
    if s.Ch? { AppendLength(s.rest, t); }
  }

  lemma {:induction false} DigitsAppend(n: nat, more: Str, rest: Str)
    ensures DigitsTo(n, Append(more, rest)) == Append(DigitsTo(n, more), rest)
  {
    if n >= 10 { DigitsAppend(n / 10, Ch(48 + n % 10, more), rest); }
  }

  lemma NumberAppend(n: int, rest: Str)
    ensures NumberTo(n, rest) == Append(NumberTo(n, End), rest)
    ensures Size(NumberTo(n, rest), rest) == Length(NumberTo(n, End))
  {
    DigitsAppend(if n < 0 then -n else n, End, rest);
    AppendLength(NumberTo(n, End), rest);
  }

  /** The first loop of print_string_ptr: `output_length` and the number of added characters. */
  method CountEscapes(s: Str) returns (length: nat, escapes: nat)
    ensures length == EscapedLength(s) && escapes == length - Length(s)
  {
    var input, plain := s, 0;
    escapes := 0;
    while input.Ch?
      invariant plain + Length(input) == Length(s)
      invariant plain + escapes + EscapedLength(input) == EscapedLength(s)
      decreases input
    {
      if ShortEscape(input.c) != 0 {
        escapes := escapes + 1;
      } else if input.c < 32 {
        escapes := escapes + 5;
      }
      input, plain := input.rest, plain + 1;
    }
    length := plain + escapes;
  }

  lemma EscapeByteAppend(c: byte, rest: Str)
    ensures EscapeByteTo(c, rest) == Append(EscapeByteTo(c, End), rest)
    ensures Length(EscapeByteTo(c, End)) == EscapedSize(c)
  {
    if c < 32 && ShortEscape(c) == 0 {
      var y := Ch(HexDigit(c / 16), Ch(HexDigit(c % 16), End));
      AppendTwo(HexDigit(c / 16), HexDigit(c % 16), rest);
      assert Append(Ch(ZERO, y), rest) == Ch(ZERO, Append(y, rest));
      assert Append(Ch(ZERO, Ch(ZERO, y)), rest) == Ch(ZERO, Append(Ch(ZERO, y), rest));
      assert Length(y) == 2 && Length(Ch(ZERO, Ch(ZERO, y))) == 4;
    } else if ShortEscape(c) != 0 {
      AppendTwo(BACKSLASH, ShortEscape(c), rest);
    } else {
      AppendOne(c, rest);
    }
  }

  lemma AppendOne(c: byte, rest: Str)
    ensures Append(Ch(c, End), rest) == Ch(c, rest) && Length(Ch(c, End)) == 1
  {
  }

  lemma AppendTwo(b: byte, c: byte, rest: Str)
    ensures Append(Ch(b, Ch(c, End)), rest) == Ch(b, Ch(c, rest)) && Length(Ch(b, Ch(c, End))) == 2
  {
    AppendOne(c, rest);
  }

  lemma KeywordsAppend(rest: Str)
    ensures Append(NullTo(End), rest) == NullTo(rest)
    ensures Append(FalseTo(End), rest) == FalseTo(rest)
    ensures Append(TrueTo(End), rest) == TrueTo(rest)
    ensures Length(NullTo(End)) == Length(TrueTo(End)) == 4 && Length(FalseTo(End)) == 5
    ensures Length(NullTo(rest)) == Length(TrueTo(rest)) == 4 + Length(rest)
    ensures Length(FalseTo(rest)) == 5 + Length(rest)
  {
    AppendTwo(108, 108, rest);
    assert Append(Ch(117, Ch(108, Ch(108, End))), rest) == Ch(117, Append(Ch(108, Ch(108, End)), rest));
    AppendTwo(117, 101, rest);
    assert Append(Ch(114, Ch(117, Ch(101, End))), rest) == Ch(114, Append(Ch(117, Ch(101, End)), rest));
    AppendTwo(115, 101, rest);
    assert Append(Ch(108, Ch(115, Ch(101, End))), rest) == Ch(108, Append(Ch(115, Ch(101, End)), rest));
    assert Append(Ch(97, Ch(108, Ch(115, Ch(101, End)))), rest) == Ch(97, Append(Ch(108, Ch(115, Ch(101, End))), rest));
    AppendLength(NullTo(End), rest);
    AppendLength(FalseTo(End), rest);
    AppendLength(TrueTo(End), rest);
  }

  /** `output_length` is exact. */
  lemma {:induction false} EscapeSize(s: Str, rest: Str)
    ensures Length(EscapeTo(s, rest)) == EscapedLength(s) + Length(rest)
  {
    if s.Ch? {
      EscapeSize(s.rest, rest);
      EscapeByteAppend(s.c, EscapeTo(s.rest, rest));
      AppendLength(EscapeByteTo(s.c, End), EscapeTo(s.rest, rest));
    }
  }

  lemma {:induction false} NoEscapes(s: Str, rest: Str)
    requires EscapedLength(s) == Length(s)
    ensures EscapeTo(s, rest) == Append(s, rest)
  {
    if s.Ch? {
      EscapedIsLonger(s.rest);
      NoEscapes(s.rest, rest);
    }
  }

  lemma {:induction false} EscapedIsLonger(s: Str)
    ensures EscapedLength(s) >= Length(s)
  {
    if s.Ch? { EscapedIsLonger(s.rest); }
  }

  // ---- No text is shorter than what follows it ----------------------------------------------------

  lemma {:induction false} TabsSize(n: nat, rest: Str)
    ensures Length(TabsTo(n, rest)) == n + Length(rest)
  {
    if n > 0 { TabsSize(n - 1, rest); }
  }

  lemma {:induction false} RenderGrows(t: Json, format: bool, d: nat, rest: Str)
    ensures Length(RenderTo(t, format, d, rest)) >= Length(rest)
    decreases t
  {
    match t
    case Null => KeywordsAppend(rest);
    case False => KeywordsAppend(rest);
    case True => KeywordsAppend(rest);
    case Number(n) => NumberAppend(n, rest);
    case String(s) => EscapeSize(s, Ch(QUOTE, rest));
    case Array(items) => ItemsGrow(items, format, d + 1, Ch(RBRACKET, rest));
    case Object(members) =>
      TabsSize(d, Ch(RBRACE, rest));
      MembersGrow(members, format, d + 1, IndentTo(format, d, Ch(RBRACE, rest)));
  }

  lemma {:induction false} ItemsGrow(items: Items, format: bool, d: nat, rest: Str)
    ensures Length(ItemsTo(items, format, d, rest)) >= Length(rest)
    decreases items
  {
    if items.Item? {
      ItemsGrow(items.tail, format, d, rest);
      RenderGrows(items.head, format, d, if items.tail.NoItems? then rest else ItemGapTo(format, ItemsTo(items.tail, format, d, rest)));
    }
  }

  lemma {:induction false} MembersGrow(members: Members, format: bool, d: nat, rest: Str)
    ensures Length(MembersTo(members, format, d, rest)) >= Length(rest)
    decreases members
  {
    if members.Member? {
      MembersGrow(members.others, format, d, rest);
      var gap := MemberGapTo(members.others.NoMembers?, format, MembersTo(members.others, format, d, rest));
      RenderGrows(members.value, format, d, gap);
      KeyGrows(members.key, format, d, RenderTo(members.value, format, d, gap));
    }
  }

  lemma KeyGrows(key: Str, format: bool, d: nat, rest: Str)
    ensures Length(KeyTo(key, format, d, rest)) >= Length(rest)
  {
    var colon := Ch(COLON, if format then Ch(TAB, rest) else rest);
    EscapeSize(key, Ch(QUOTE, colon));
    TabsSize(d, StringTo(key, colon));
    assert Length(colon) >= Length(rest);
    assert Length(StringTo(key, colon)) >= Length(colon);
  }

  function OpenObject(format: bool): Str {
    Ch(LBRACE, if format then Ch(NEWLINE, End) else End)
  }

  function Comma(format: bool): Str {
    Ch(COMMA, if format then Ch(SPACE, End) else End)
  }

  lemma CommaText(format: bool, more: Str)
    ensures ItemGapTo(format, more) == Append(Comma(format), more)
    ensures Length(ItemGapTo(format, more)) == Length(Comma(format)) + Length(more)
  {
    AppendOne(COMMA, more);
    AppendTwo(COMMA, SPACE, more);
    AppendLength(Comma(format), more);
  }

  function Separator(last: bool, format: bool): Str {
    var w := if format then Ch(NEWLINE, End) else End;
    if last then w else Ch(COMMA, w)
  }

  lemma SeparatorText(last: bool, format: bool, more: Str)
    ensures MemberGapTo(last, format, more) == Append(Separator(last, format), more)
    ensures Length(MemberGapTo(last, format, more)) == Length(Separator(last, format)) + Length(more)
  {
    AppendOne(COMMA, more);
    AppendOne(NEWLINE, more);
    AppendTwo(COMMA, NEWLINE, more);
    AppendLength(Separator(last, format), more);
  }

  lemma ObjectText(members: Members, format: bool, d: nat, rest: Str)
    ensures var close := IndentTo(format, d, Ch(RBRACE, rest));
      var body := MembersTo(members, format, d + 1, close);
      && RenderTo(Object(members), format, d, rest) == Append(OpenObject(format), body)
      && Length(RenderTo(Object(members), format, d, rest)) == Length(OpenObject(format)) + Length(body)
      && Length(body) >= Length(close) > Length(rest)
  {
    var close := IndentTo(format, d, Ch(RBRACE, rest));
    var body := MembersTo(members, format, d + 1, close);
    MembersGrow(members, format, d + 1, close);
    TabsSize(d, Ch(RBRACE, rest));
    AppendOne(LBRACE, body);
    AppendTwo(LBRACE, NEWLINE, body);
    AppendLength(OpenObject(format), body);
  }

  lemma ArrayText(items: Items, format: bool, d: nat, rest: Str)
    ensures var body := ItemsTo(items, format, d + 1, Ch(RBRACKET, rest));
      && RenderTo(Array(items), format, d, rest) == Append(Ch(LBRACKET, End), body)
      && Length(RenderTo(Array(items), format, d, rest)) == Length(Ch(LBRACKET, End)) + Length(body)
      && Length(body) >= Length(Ch(RBRACKET, rest)) == Length(Append(Ch(RBRACKET, End), rest)) == 1 + Length(rest)
      && Append(Ch(RBRACKET, End), rest) == Ch(RBRACKET, rest)
      && Length(Ch(LBRACKET, End)) == Length(Ch(RBRACKET, End)) == 1
  {
    ItemsGrow(items, format, d + 1, Ch(RBRACKET, rest));
    AppendOne(LBRACKET, ItemsTo(items, format, d + 1, Ch(RBRACKET, rest)));
    AppendOne(RBRACKET, rest);
  }

  // ---- The public entry points ---------------------------------------------------------------------

  /** cJSON_Print and cJSON_PrintUnformatted: the text of `t` and a NUL, or nothing when they do not
      fit in INT_MAX - 1 bytes. */
  method Print(t: Json, format: bool) returns (ok: bool, printed: array<int>)
    ensures ok <==> Length(RenderTo(t, format, 0, End)) + 2 <= INT_MAX
    ensures ok ==> printed[..] == Raw(RenderTo(t, format, 0, End)) + [0]
  {
    printed := new int[DEFAULT_SIZE];
    var p := new PrintBuffer(printed, false, format);
    ok := p.PrintElement(t, End);
    if ok {
      WholeText(p.text, RenderTo(t, format, 0, End));
      var source, n := p.buffer, p.offset;
      ghost var text := p.text;
      printed := new int[n + 1];
      for i := 0 to n
        invariant forall k :: 0 <= k < i ==> printed[k] == text[k]
        modifies printed
      {
        printed[i] := source[i];
      }
      printed[n] := 0;
      assert printed[..] == text + [0];
    }
  }

  lemma WholeText(text: seq<int>, whole: Str)
    requires text + Raw(End) == [] + Raw(whole)
    ensures text == Raw(whole)
  {
    assert text + Raw(End) == text;
  }

  /** cJSON_PrintPreallocated: succeeds exactly when two bytes more than the text fit. */
  method PrintPreallocated(t: Json, output: array<int>, format: bool) returns (ok: bool)
    requires output.Length <= INT_MAX
    modifies output
    ensures ok <==> Length(RenderTo(t, format, 0, End)) + 2 <= output.Length
    ensures ok ==> var n := Length(RenderTo(t, format, 0, End));
                   output[..n] == Raw(RenderTo(t, format, 0, End)) && output[n] == 0
  {
    var p := new PrintBuffer(output, true, format);
    ok := p.PrintValue(t, End);
    if ok { WholeText(p.text, RenderTo(t, format, 0, End)); }
  }
}
