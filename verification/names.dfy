/** The interceptor's string helpers: stripping a prefix or a suffix, and the
    service name with its vendor prefix removed. Comparisons are ordinal. */
module Names {
  import opened Common

  predicate StartsWith(s: string, prefix: string) {
    prefix <= s
  }

  predicate EndsWith(s: string, suffix: string) {
    |suffix| <= |s| && s[|s| - |suffix|..] == suffix
  }

  /** `RemovePrefix`: `s` without its leading `prefix` when it has one, `s` otherwise;
      a null argument throws, the prefix being checked first. */
  function RemovePrefix(originalString: Option<string>, prefix: Option<string>): (r: Result<string>)
    ensures prefix.None? ==> r == Err(ArgumentNull("prefix"))
    ensures prefix.Some? && originalString.None? ==> r == Err(ArgumentNull("originalString"))
    ensures r.Ok? <==> prefix.Some? && originalString.Some?
    ensures r.Ok? && StartsWith(originalString.value, prefix.value) ==>
              prefix.value + r.value == originalString.value
    ensures r.Ok? && !StartsWith(originalString.value, prefix.value) ==>
              r.value == originalString.value
  {
    if prefix.None? then Err(ArgumentNull("prefix"))
    else if originalString.None? then Err(ArgumentNull("originalString"))
    else
      var s, p := originalString.value, prefix.value;
      Ok(if StartsWith(s, p) then s[|p|..] else s)
  }

  /** `RemoveSuffix`: the mirror image of `RemovePrefix`. */
  function RemoveSuffix(originalString: Option<string>, suffix: Option<string>): (r: Result<string>)
    ensures suffix.None? ==> r == Err(ArgumentNull("suffix"))
    ensures suffix.Some? && originalString.None? ==> r == Err(ArgumentNull("originalString"))
    ensures r.Ok? <==> suffix.Some? && originalString.Some?
    ensures r.Ok? && EndsWith(originalString.value, suffix.value) ==>
              r.value + suffix.value == originalString.value
    ensures r.Ok? && !EndsWith(originalString.value, suffix.value) ==>
              r.value == originalString.value
  {
    if suffix.None? then Err(ArgumentNull("suffix"))
    else if originalString.None? then Err(ArgumentNull("originalString"))
    else
      var s, q := originalString.value, suffix.value;
      Ok(if EndsWith(s, q) then s[..|s| - |q|] else s)
  }

  /** `RemoveAmazonPrefixFromServiceName`: strip "Amazon", then strip ".". */
  function RemoveAmazonPrefixFromServiceName(serviceName: Option<string>): (r: Result<string>)
    ensures r.Ok? <==> serviceName.Some?
    ensures serviceName.None? ==> r == Err(ArgumentNull("originalString"))
    ensures r.Ok? ==> serviceName.value in {r.value, "." + r.value, "Amazon" + r.value, "Amazon." + r.value}
  {
    match RemovePrefix(serviceName, Some("Amazon"))
    case Err(e) => Err(e)
    case Ok(withoutVendor) =>
      var r := RemovePrefix(Some(withoutVendor), Some("."));
      assert withoutVendor == r.value || withoutVendor == "." + r.value;
      assert "Amazon" + ("." + r.value) == "Amazon." + r.value;
      r
  }

  /** The strings `RemovePrefix` maps to `x`: `prefix + x`, and `x` itself when it
      does not start with `prefix`. */
  lemma RemovePrefixPreimage(s: string, prefix: string, x: string)
    ensures RemovePrefix(Some(s), Some(prefix)) == Ok(x) <==>
              s == prefix + x || (s == x && !StartsWith(x, prefix))
  {
    if s == prefix + x {
      assert StartsWith(s, prefix);
      assert s[|prefix|..] == x;
    }
  }

  /** The strings `RemoveSuffix` maps to `x`: `x + suffix`, and `x` itself when it
      does not end with `suffix`. */
  lemma RemoveSuffixPreimage(s: string, suffix: string, x: string)
    ensures RemoveSuffix(Some(s), Some(suffix)) == Ok(x) <==>
              s == x + suffix || (s == x && !EndsWith(x, suffix))
  {
    if s == x + suffix {
      assert EndsWith(s, suffix);
      assert s[..|s| - |suffix|] == x;
    }
  }

  /** The service names stripped to `x`: "Amazon." + x; "Amazon" + x when x does not
      start with "."; "." + x; and x itself when it starts with neither. */
  lemma AmazonPrefixPreimage(s: string, x: string)
    ensures RemoveAmazonPrefixFromServiceName(Some(s)) == Ok(x) <==>
              || s == "Amazon." + x
              || (s == "Amazon" + x && !StartsWith(x, "."))
              || s == "." + x
              || (s == x && !StartsWith(x, "Amazon") && !StartsWith(x, "."))
  {
    var t := RemovePrefix(Some(s), Some("Amazon")).value;
    RemovePrefixPreimage(t, ".", x);
    RemovePrefixPreimage(s, "Amazon", "." + x);
    RemovePrefixPreimage(s, "Amazon", x);
    assert "Amazon." + x == "Amazon" + ("." + x);
    assert !StartsWith("." + x, "Amazon") by {
      assert ("." + x)[0] != "Amazon"[0];
    }
    if s == x && !StartsWith(x, "Amazon") && !StartsWith(x, ".") {
      assert t == s;
    }
    if s == "." + x {
      assert t == s;
    }
    if s == "Amazon" + x && !StartsWith(x, ".") {
      assert t == x;
    }
    if RemoveAmazonPrefixFromServiceName(Some(s)) == Ok(x) {
      if StartsWith(s, "Amazon") {
        RemovePrefixPreimage(s, "Amazon", t);
      } else {
        assert t == s;
      }
    }
  }

  /** Exactly four advertised service names are the queue service "SQS". */
  lemma ServiceNameIsSqs(serviceName: string)
    ensures RemoveAmazonPrefixFromServiceName(Some(serviceName)) == Ok("SQS") <==>
              serviceName in {"SQS", ".SQS", "AmazonSQS", "Amazon.SQS"}
  {
    var t := RemovePrefix(Some(serviceName), Some("Amazon")).value;
    RemovePrefixPreimage(t, ".", "SQS");
    assert "SQS"[0] != "."[0];
    assert "." + "SQS" == ".SQS";
    assert RemovePrefix(Some(t), Some(".")) == Ok("SQS") <==> t == ".SQS" || t == "SQS";
    RemovePrefixPreimage(serviceName, "Amazon", ".SQS");
    RemovePrefixPreimage(serviceName, "Amazon", "SQS");
    assert ".SQS"[0] != "Amazon"[0];
    assert "SQS"[0] != "Amazon"[0];
    assert "Amazon" + ".SQS" == "Amazon.SQS";
    assert "Amazon" + "SQS" == "AmazonSQS";
  }
}
