/** The library's own error codes, their messages, and the error record that
    the IAM operations return in place of an SDK response. */
module ErrorCodes {
  import opened Values
  import Decimal

  const AWS_NO_ERROR: int := 0
  const AWS_IAM_ROLE_ALREADY_EXISTS: int := 1
  const AWS_IAM_ROLE_DOES_NOT_EXIST: int := 2

  /** The closed table of defined codes. */
  const AWS_ERROR_MESSAGES: map<int, string> := map[
    AWS_NO_ERROR := "No error",
    AWS_IAM_ROLE_ALREADY_EXISTS := "AWS IAM Role Already Exists",
    AWS_IAM_ROLE_DOES_NOT_EXIST := "AWS IAM Role Does Not Exist"
  ]

  const UNKNOWN_PREFIX: string := "Error code "
  const UNKNOWN_SUFFIX: string := " does not exist"

  /** The message of a code: the table's entry, or a sentence naming an undefined code. */
  function MsgFromCode(code: int): (msg: string)
    ensures code == AWS_NO_ERROR ==> msg == "No error"
    ensures code == AWS_IAM_ROLE_ALREADY_EXISTS ==> msg == "AWS IAM Role Already Exists"
    ensures code == AWS_IAM_ROLE_DOES_NOT_EXIST ==> msg == "AWS IAM Role Does Not Exist"
    ensures code !in {AWS_NO_ERROR, AWS_IAM_ROLE_ALREADY_EXISTS, AWS_IAM_ROLE_DOES_NOT_EXIST} ==>
              msg == "Error code " + Decimal.FormatInt(code) + " does not exist"
  {
    if code in AWS_ERROR_MESSAGES then AWS_ERROR_MESSAGES[code]
    else UNKNOWN_PREFIX + Decimal.FormatInt(code) + UNKNOWN_SUFFIX
  }

  /** Two messages built around different middles differ. */
  lemma SameFrame(a: string, b: string)
    requires UNKNOWN_PREFIX + a + UNKNOWN_SUFFIX == UNKNOWN_PREFIX + b + UNKNOWN_SUFFIX
    ensures a == b
  {
    var s := UNKNOWN_PREFIX + a + UNKNOWN_SUFFIX;
    var t := UNKNOWN_PREFIX + b + UNKNOWN_SUFFIX;
    assert |a| == |b|;
    assert a == s[|UNKNOWN_PREFIX|..|UNKNOWN_PREFIX| + |a|];
    assert b == t[|UNKNOWN_PREFIX|..|UNKNOWN_PREFIX| + |b|];
  }

  /** The table's messages do not read like the sentence for an undefined code. */
  lemma DefinedMessageShape(c: int)
    requires c in {AWS_NO_ERROR, AWS_IAM_ROLE_ALREADY_EXISTS, AWS_IAM_ROLE_DOES_NOT_EXIST}
    ensures |MsgFromCode(c)| >= 4 && MsgFromCode(c)[..4] != "Erro"
  {
    if c == AWS_NO_ERROR {
      assert MsgFromCode(c)[..4] == "No e";
    } else {
      assert MsgFromCode(c)[..4] == "AWS ";
    }
  }

  /** A message identifies its code: different codes never share a message. */
  lemma MsgFromCodeInjective(a: int, b: int)
    requires MsgFromCode(a) == MsgFromCode(b)
    ensures a == b
  {
    var defined := {AWS_NO_ERROR, AWS_IAM_ROLE_ALREADY_EXISTS, AWS_IAM_ROLE_DOES_NOT_EXIST};
    if a !in defined && b !in defined {
      SameFrame(Decimal.FormatInt(a), Decimal.FormatInt(b));
      Decimal.FormatIntInjective(a, b);
    } else if a in defined && b !in defined {
      DefinedMessageShape(a);
      assert false;
    } else if a !in defined && b in defined {
      DefinedMessageShape(b);
      assert false;
    }
  }

  const ERROR_KEY: string := "Error"
  const ERROR_CODE_KEY: string := "Error Code"
  const ERROR_MESSAGE_KEY: string := "Error message"

  /** The error record: always flagged as an error, even for AWS_NO_ERROR. */
  function ConstructResponse(code: int): (r: Dict)
    ensures r.Keys == {"Error", "Error Code", "Error message"}
    ensures r["Error"] == VBool(true)
    ensures r["Error Code"] == VInt(code)
    ensures r["Error message"] == VStr(MsgFromCode(code))
  {
    map[ERROR_KEY := VBool(true), ERROR_CODE_KEY := VInt(code), ERROR_MESSAGE_KEY := VStr(MsgFromCode(code))]
  }
}
