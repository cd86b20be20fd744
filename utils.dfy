/** generate_group_id: "pirulo-" followed by sixteen characters drawn from
    the lower-case hexadecimal alphabet. The random indices are a parameter
    (the uniform distribution over 0..15 the program draws them from). */
module GroupIds {

  /** GROUP_ID_LENGTH */
  const GroupIdLength: nat := 16

  const Prefix: string := "pirulo-"

  /** The alphabet the characters are drawn from. */
  const Alphabet: string := "0123456789abcdef"

  /** The value of a lower-case hexadecimal digit, -1 for any other character. */
  function DigitValue(c: char): (d: int)
    ensures -1 <= d < 16
  {
    if '0' <= c <= '9' then c as int - '0' as int
    else if 'a' <= c <= 'f' then c as int - 'a' as int + 10
    else -1
  }

  /** The alphabet is exactly the sixteen hexadecimal digits, each character
      standing for its own index. */
  lemma AlphabetDigits()
    ensures |Alphabet| == 16
    ensures forall d :: 0 <= d < 16 ==> DigitValue(Alphabet[d]) == d
  {
    assert Alphabet[0] == '0' && Alphabet[1] == '1' && Alphabet[2] == '2' && Alphabet[3] == '3';
    assert Alphabet[4] == '4' && Alphabet[5] == '5' && Alphabet[6] == '6' && Alphabet[7] == '7';
    assert Alphabet[8] == '8' && Alphabet[9] == '9' && Alphabet[10] == 'a' && Alphabet[11] == 'b';
    assert Alphabet[12] == 'c' && Alphabet[13] == 'd' && Alphabet[14] == 'e' && Alphabet[15] == 'f';
  }

  /** The id made from a run of drawn indices. */
  function GroupId(draws: seq<int>): (id: string)
    requires forall i :: 0 <= i < |draws| ==> 0 <= draws[i] < |Alphabet|
  {
    Prefix + seq(|draws|, i requires 0 <= i < |draws| => Alphabet[draws[i]])
  }

  /** The indices drawn for an id, read back from its characters. */
  function DrawsOf(id: string): (draws: seq<int>)
    requires |id| >= |Prefix|
    ensures |draws| == |id| - |Prefix|
  {
    seq(|id| - |Prefix|, i requires 0 <= i < |id| - |Prefix| => DigitValue(id[|Prefix| + i]))
  }

  /** An id starts with "pirulo-", is 23 characters long for sixteen draws,
      continues with hexadecimal digits only, and gives back the indices it
      was made from: two different draws never make the same id. */
  lemma GroupIdFormat(draws: seq<int>)
    requires |draws| == GroupIdLength
    requires forall i :: 0 <= i < |draws| ==> 0 <= draws[i] < 16
    ensures |GroupId(draws)| == 23
    ensures GroupId(draws)[..7] == "pirulo-"
    ensures forall i :: 7 <= i < 23 ==> DigitValue(GroupId(draws)[i]) != -1
    ensures DrawsOf(GroupId(draws)) == draws
  {
    AlphabetDigits();
    var id := GroupId(draws);
    assert id[..7] == Prefix;
    forall i | 7 <= i < 23 ensures DigitValue(id[i]) == draws[i - 7] {
      assert id[i] == Alphabet[draws[i - 7]];
    }
  }

  /** The alphanums array, filled by the two loops of generate_group_id. */
  method Alphanums() returns (a: array<char>)
    ensures fresh(a) && a[..] == Alphabet
  {
    a := new char[16];
    for i := 0 to 10
      invariant forall k :: 0 <= k < i ==> a[k] == ('0' as int + k) as char
    {
      a[i] := ('0' as int + i) as char;
    }
    for c := 'a' as int to 'f' as int + 1
      invariant forall k :: 0 <= k < 10 ==> a[k] == ('0' as int + k) as char
      invariant forall k :: 10 <= k < 10 + c - 'a' as int ==> a[k] == ('a' as int + k - 10) as char
    {
      a[10 + c - 'a' as int] := c as char;
    }
    AlphabetDigits();
  }

  /** generate_group_id with its random indices given. */
  method GenerateGroupId(draws: seq<int>) returns (output: string)
    requires |draws| == GroupIdLength
    requires forall i :: 0 <= i < |draws| ==> 0 <= draws[i] < 16
    ensures output == GroupId(draws)
  {
    var alphanums := Alphanums();
    output := "pirulo-";
    for i := 0 to GroupIdLength
      invariant output == GroupId(draws[..i])
    {
      output := output + [alphanums[draws[i]]];
      assert GroupId(draws[..i + 1]) == GroupId(draws[..i]) + [Alphabet[draws[i]]];
    }
    assert draws[..GroupIdLength] == draws;
  }
}
