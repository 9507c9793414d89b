/** Redaction of identifiers before they are shown or logged (Services/Masking.cs). */
module Masking {
  import opened Text

  const Bullet := '\U{2022}'

  /** Masking.MaskId: all but the last four characters become '*'; blank or short input becomes "****". */
  function MaskId(id: string): string {
    if IsBlank(id) || |id| < 4 then "****" else Repeat('*', |id| - 4) + id[|id| - 4..]
  }

  /** Masking.MaskAccount: all but the last four characters become bullets; four or fewer are shown as they are. */
  function MaskAccount(number: string): string {
    if |number| <= 4 then number else Repeat(Bullet, |number| - 4) + number[|number| - 4..]
  }

  /** What MaskId shows of an identifier. */
  lemma MaskIdShape(id: string)
    ensures IsBlank(id) || |id| < 4 ==> MaskId(id) == "****"
    ensures !IsBlank(id) && |id| >= 4 ==>
      var r := MaskId(id);
      && |r| == |id|
      && r[|id| - 4..] == id[|id| - 4..]
      && forall i :: 0 <= i < |id| - 4 ==> r[i] == '*'
  {
  }

  /** Masking a masked identifier changes nothing. */
  lemma MaskIdIdempotent(id: string)
    ensures MaskId(MaskId(id)) == MaskId(id)
  {
    var r := MaskId(id);
    if IsBlank(id) || |id| < 4 {
      assert !IsWhiteSpace(r[0]);
      assert Repeat('*', 0) + r[0..] == r;
    } else if |id| == 4 {
      assert r == id;
    } else {
      assert r[0] == '*';
      assert !IsBlank(r);
      assert r[|r| - 4..] == id[|id| - 4..];
    }
  }

  /** What MaskAccount shows of an account number. */
  lemma MaskAccountShape(number: string)
    ensures |number| <= 4 ==> MaskAccount(number) == number
    ensures |number| > 4 ==>
      var r := MaskAccount(number);
      && |r| == |number|
      && r[|number| - 4..] == number[|number| - 4..]
      && forall i :: 0 <= i < |number| - 4 ==> r[i] == Bullet
  {
  }

  /** Masking a masked account number changes nothing. */
  lemma MaskAccountIdempotent(number: string)
    ensures MaskAccount(MaskAccount(number)) == MaskAccount(number)
  {
    var r := MaskAccount(number);
    if |number| > 4 {
      assert r[|r| - 4..] == number[|number| - 4..];
      assert Repeat(Bullet, |r| - 4) == r[..|r| - 4];
    }
  }
}

/** The redaction used by the audit log (Services/AuditLogger.cs); writing the log itself is not modelled. */
module AuditLogger {
  import opened Text
  import Masking

  /** AuditLogger.Mask: the same rule as Masking.MaskId. */
  function Mask(s: string): string {
    if IsBlank(s) || |s| < 4 then "****" else Repeat('*', |s| - 4) + s[|s| - 4..]
  }

  /** The audit log redacts exactly as Masking.MaskId does. */
  lemma MaskAgreesWithMaskId(s: string)
    ensures Mask(s) == Masking.MaskId(s)
  {
  }

  /** What Mask shows of a value. */
  lemma MaskShape(s: string)
    ensures IsBlank(s) ==> Mask(s) == "****"
    ensures !IsBlank(s) && |s| < 4 ==> Mask(s) == "****"
    ensures !IsBlank(s) && |s| >= 4 ==>
      var r := Mask(s);
      && |r| == |s|
      && r[|s| - 4..] == s[|s| - 4..]
      && forall i :: 0 <= i < |s| - 4 ==> r[i] == '*'
  {
  }
}
