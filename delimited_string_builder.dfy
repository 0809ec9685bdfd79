/**
 * `DelimitedStringBuilder`: a string buffer that puts its delimiter in front
 * of every appended text except the first one into an empty buffer.
 */
module DelimitedStringBuilders {
  import opened Strings

  /** The buffer after one `Append(text)`. */
  function AppendDelimited(buffer: string, delimiter: string, text: string): (r: string)
    ensures |buffer| > 0 ==> r == buffer + delimiter + text
    ensures |buffer| == 0 ==> r == text
  {
    (if |buffer| > 0 then buffer + delimiter else buffer) + text
  }

  /** The buffer after appending each of `texts` in order. */
  function AppendAll(buffer: string, delimiter: string, texts: seq<string>): string
  {
    if |texts| == 0 then buffer
    else AppendDelimited(AppendAll(buffer, delimiter, texts[..|texts| - 1]), delimiter, texts[|texts| - 1])
  }

  /** Appending non-empty texts to a fresh builder yields `string.Join`. */
  lemma {:induction false} AppendAllIsJoin(delimiter: string, texts: seq<string>)
    requires forall i :: 0 <= i < |texts| ==> texts[i] != ""
    ensures AppendAll("", delimiter, texts) == Join(delimiter, texts)
    ensures AppendAll("", delimiter, texts) == "" <==> texts == []
  {
    if |texts| > 0 {
      var init := texts[..|texts| - 1];
      AppendAllIsJoin(delimiter, init);
      if |texts| > 1 {
        assert init != [] && init[0] == texts[0];
      }
    }
  }

  class DelimitedStringBuilder {
    var buffer: string
    const Delimiter: string

    constructor (delimiter: string)
      ensures Delimiter == delimiter && buffer == ""
    {
      Delimiter := delimiter;
      buffer := "";
    }

    method Append(text: string)
      modifies `buffer
      ensures buffer == AppendDelimited(old(buffer), Delimiter, text)
    {
      if |buffer| > 0 {
        buffer := buffer + Delimiter;
      }
      buffer := buffer + text;
    }

    /** Appends without a delimiter. */
    method AppendRaw(text: string)
      modifies `buffer
      ensures buffer == old(buffer) + text
    {
      buffer := buffer + text;
    }

    method Clear()
      modifies `buffer
      ensures buffer == ""
    {
      buffer := "";
    }

    function ToString(): string
      reads this
    {
      buffer
    }
  }
}
