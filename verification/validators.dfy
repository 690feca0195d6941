/** The field validators of `internal/utils/common.go`. Each returns a
    validity flag together with the (possibly normalised) value. */
module Validators {
  import opened Wrappers
  import opened Model
  import Strings

  /** Go's `(bool, T)` result pair of the validators. */
  datatype Checked<T> = Checked(valid: bool, value: T)

  /** `strconv.ParseFloat(s, 64)`, which the model does not re-implement:
      `Some(v)` when the text parses, `None` when it does not. */
  type FloatParser = string -> Option<Float64>

  predicate IsDigit(c: char)
  {
    '0' <= c <= '9'
  }

  predicate AllDigits(s: string)
  {
    forall k :: 0 <= k < |s| ==> IsDigit(s[k])
  }

  /** The text `strconv.Atoi` accepts: an optional `+` or `-` followed by at
      least one ASCII digit. */
  predicate IsInteger(s: string)
  {
    if |s| > 0 && (s[0] == '+' || s[0] == '-') then |s| >= 2 && AllDigits(s[1..])
    else |s| >= 1 && AllDigits(s)
  }

  /** `IsIPValid`: exactly four `.`-separated parts, each one `Atoi`-parsable.
      No octet range is enforced. The input comes back unchanged. */
  function IsIPValid(ip: string): (r: Checked<string>)
    ensures r.value == ip
    ensures r.valid ==> |Strings.Split(ip, '.')| == 4
  {
    var parts := Strings.Split(ip, '.');
    if |parts| != 4 then Checked(false, ip)
    else Checked(forall i :: 0 <= i < 4 ==> IsInteger(parts[i]), ip)
  }

  /** The intended shape of an address, stated without `Split`: four
      integer texts joined by dots. */
  ghost predicate DottedQuad(ip: string)
  {
    exists a, b, c, d :: IsInteger(a) && IsInteger(b) && IsInteger(c) && IsInteger(d)
                         && ip == a + "." + b + "." + c + "." + d
  }

  lemma IntegerHasNoDot(s: string)
    requires IsInteger(s)
    ensures '.' !in s
  {
    IntegerCharset(s);
  }

  lemma JoinFour(a: string, b: string, c: string, d: string)
    ensures Strings.Join([a, b, c, d], ".") == a + "." + b + "." + c + "." + d
  {
    assert [a, b, c, d][1..] == [b, c, d];
    assert [b, c, d][1..] == [c, d];
    assert [c, d][1..] == [d];
    assert Strings.Join([c, d], ".") == c + "." + d;
    assert Strings.Join([b, c, d], ".") == b + "." + (c + "." + d);
    assert Strings.Join([a, b, c, d], ".") == a + "." + (b + "." + (c + "." + d));
  }

  /** `IsIPValid` accepts exactly the dotted quads of integer texts. */
  lemma IsIPValidIffDottedQuad(ip: string)
    ensures IsIPValid(ip).valid <==> DottedQuad(ip)
  {
    var parts := Strings.Split(ip, '.');
    if IsIPValid(ip).valid {
      var a, b, c, d := parts[0], parts[1], parts[2], parts[3];
      assert parts == [a, b, c, d];
      JoinFour(a, b, c, d);
      assert IsInteger(a) && IsInteger(b) && IsInteger(c) && IsInteger(d);
    }
    if DottedQuad(ip) {
      var a, b, c, d :| IsInteger(a) && IsInteger(b) && IsInteger(c) && IsInteger(d)
                        && ip == a + "." + b + "." + c + "." + d;
      IntegerHasNoDot(a);
      IntegerHasNoDot(b);
      IntegerHasNoDot(c);
      IntegerHasNoDot(d);
      JoinFour(a, b, c, d);
      Strings.SplitJoin([a, b, c, d], '.');
      assert parts == [a, b, c, d];
    }
  }

  /** A valid address is made of digits, signs and dots only, so it can never
      carry a quote character. */
  lemma ValidIPCharset(ip: string)
    requires IsIPValid(ip).valid
    ensures forall k :: 0 <= k < |ip| ==> IsDigit(ip[k]) || ip[k] in "+-."
  {
    IsIPValidIffDottedQuad(ip);
    var a, b, c, d :| IsInteger(a) && IsInteger(b) && IsInteger(c) && IsInteger(d)
                      && ip == a + "." + b + "." + c + "." + d;
    IntegerCharset(a);
    IntegerCharset(b);
    IntegerCharset(c);
    IntegerCharset(d);
  }

  lemma IntegerCharset(s: string)
    requires IsInteger(s)
    ensures forall k :: 0 <= k < |s| ==> IsDigit(s[k]) || s[k] in "+-"
  {
    forall k | 0 <= k < |s| ensures IsDigit(s[k]) || s[k] in "+-" {
      if k > 0 && (s[0] == '+' || s[0] == '-') {
        assert s[1..][k - 1] == s[k];
      }
    }
  }

  /** For text assembled from dot-free parts, validity depends only on the
      parts: there must be four of them and each must be an integer. */
  lemma IsIPValidOfParts(parts: seq<string>)
    requires |parts| >= 1
    requires forall i :: 0 <= i < |parts| ==> '.' !in parts[i]
    ensures IsIPValid(Strings.Join(parts, ".")).valid
            <==> |parts| == 4 && forall i :: 0 <= i < 4 ==> IsInteger(parts[i])
  {
    Strings.SplitJoin(parts, '.');
  }

  /** For four dot-free parts joined by dots, validity is exactly "each
      part is an integer". */
  lemma QuadValidity(a: string, b: string, c: string, d: string)
    requires '.' !in a && '.' !in b && '.' !in c && '.' !in d
    ensures IsIPValid(a + "." + b + "." + c + "." + d).valid
            <==> IsInteger(a) && IsInteger(b) && IsInteger(c) && IsInteger(d)
  {
    var parts := [a, b, c, d];
    assert forall i :: 0 <= i < 4 ==> parts[i] in {a, b, c, d};
    IsIPValidOfParts(parts);
    JoinFour(a, b, c, d);
    assert (forall i :: 0 <= i < 4 ==> IsInteger(parts[i]))
           <==> IsInteger(a) && IsInteger(b) && IsInteger(c) && IsInteger(d)
    by {
      assert parts[0] == a && parts[1] == b && parts[2] == c && parts[3] == d;
    }
  }

  /** Concrete case: an ordinary address. */
  lemma IsIPValidAcceptsAddress()
    ensures IsIPValid("200.106.141.15").valid
  {
    assert "200" + "." + "106" + "." + "141" + "." + "15" == "200.106.141.15";
    assert IsInteger("200") && IsInteger("106") && IsInteger("141") && IsInteger("15");
    QuadValidity("200", "106", "141", "15");
  }

  /** Concrete case: a column name is a single part. */
  lemma IsIPValidRejectsName()
    ensures !IsIPValid("ip_address").valid
  {
    IsIPValidOfParts(["ip_address"]);
  }

  /** Concrete case: no octet range check is made. */
  lemma IsIPValidIgnoresOctetRange()
    ensures IsIPValid("999.1.1.1").valid
  {
    assert "999" + "." + "1" + "." + "1" + "." + "1" == "999.1.1.1";
    assert IsInteger("999") && IsInteger("1");
    QuadValidity("999", "1", "1", "1");
  }

  /** Concrete case: a part that is not an integer. */
  lemma IsIPValidRejectsLetters()
    ensures !IsIPValid("200.106.141.er").valid
  {
    assert "200" + "." + "106" + "." + "141" + "." + "er" == "200.106.141.er";
    assert !IsInteger("er");
    QuadValidity("200", "106", "141", "er");
  }

  /** Concrete case: the address of a record the sanitiser discards. */
  lemma IsIPValidRejectsLongerLetters()
    ensures !IsIPValid("200.106.141.tyr").valid
  {
    assert "200" + "." + "106" + "." + "141" + "." + "tyr" == "200.106.141.tyr";
    assert !IsInteger("tyr");
    QuadValidity("200", "106", "141", "tyr");
  }

  /** Concrete case: three parts are too few. */
  lemma IsIPValidRejectsThreeParts()
    ensures !IsIPValid("200.106.141").valid
  {
    var parts := ["200", "106", "141"];
    var ip := Strings.Join(parts, ".");
    IsIPValidOfParts(parts);
    assert parts[1..] == ["106", "141"];
    assert parts[1..][1..] == ["141"];
    assert ip == "200.106.141";
  }

  /** Concrete case: the empty text is one empty part. */
  lemma IsIPValidRejectsEmpty()
    ensures !IsIPValid("").valid
  {
    IsIPValidOfParts([""]);
  }

  /** Concrete case: an empty inner part fails `Atoi`. */
  lemma IsIPValidRejectsEmptyInnerPart()
    ensures !IsIPValid("1..2.3").valid
  {
    assert "1" + "." + "" + "." + "2" + "." + "3" == "1..2.3";
    QuadValidity("1", "", "2", "3");
  }

  /** Concrete case: a trailing dot leaves an empty last part. */
  lemma IsIPValidRejectsTrailingDot()
    ensures !IsIPValid("1.2.3.").valid
  {
    assert "1" + "." + "2" + "." + "3" + "." + "" == "1.2.3.";
    QuadValidity("1", "2", "3", "");
  }

  /** `IsStringValid`: the trimmed text, valid when something is left. */
  function IsStringValid(s: string): (r: Checked<string>)
    ensures r.valid <==> !Strings.AllSpace(s)
    ensures r.valid <==> |r.value| > 0
    ensures |r.value| > 0 ==> !Strings.IsSpace(r.value[0]) && !Strings.IsSpace(r.value[|r.value| - 1])
    ensures Strings.TrimmedAt(s, Strings.SkipSpace(s, 0), r.value)
  {
    var t := Strings.TrimSpace(s);
    Strings.TrimSpaceEmpty(s);
    Checked(|t| > 0, t)
  }

  /** Validating an already-validated string changes nothing. */
  lemma IsStringValidIdempotent(s: string)
    ensures IsStringValid(IsStringValid(s).value) == IsStringValid(s)
  {
    Strings.TrimSpaceIdempotent(s);
  }

  /** `IsFloat64Valid`: the flag is exactly "the parse succeeded"; a failed
      parse yields zero. */
  function IsFloat64Valid(parse: FloatParser, s: string): (r: Checked<Float64>)
    ensures r.valid <==> parse(s).Some?
    ensures r.valid ==> r.value == parse(s).value
    ensures !r.valid ==> r.value == Zero
  {
    match parse(s)
    case Some(v) => Checked(true, v)
    case None => Checked(false, Zero)
  }
}
