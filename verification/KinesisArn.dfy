/** Kinesis stream ARNs, taken apart and put together: agent/lib_aws_sdk_php.c. */
module KinesisArn {
  import opened CStrings
  import opened Options

  const STREAM := ":stream/"
  const SERVICE := "arn:aws:kinesis"

  class MessageParams {
    var destinationName: Option<string>
  }

  class CloudAttrs {
    var resourceId: Option<string>
    var accountId: Option<string>
    var region: Option<string>
  }

  /** The stream name in an ARN: what follows the first ":stream/", unless that is nothing. */
  function StreamOf(arn: string): Option<string> {
    var i := IndexOf(arn, STREAM);
    if i < 0 || i + |STREAM| == |arn| then None else Some(arn[i + |STREAM|..])
  }

  function BuildArn(region: string, account: string, name: string): string {
    SERVICE + ":" + region + ":" + account + STREAM + name
  }

  predicate IsSet(s: Option<string>) {
    s.Some? && s.value != ""
  }

  method SetParamsFromStreamArn(arn: Option<string>, params: MessageParams?, attrs: CloudAttrs?)
    modifies params, attrs
    ensures var known := params != null && attrs != null && arn.Some? && StreamOf(arn.value).Some?;
            && (params != null ==>
                  params.destinationName == if known then StreamOf(arn.value) else old(params.destinationName))
            && (attrs != null ==>
                  && attrs.resourceId == (if known then arn else old(attrs.resourceId))
                  && attrs.accountId == old(attrs.accountId) && attrs.region == old(attrs.region))
  {
    if !IsSet(arn) || params == null || attrs == null {
      return;
    }
    var i := IndexOf(arn.value, STREAM);
    if i < 0 {
      return;
    }
    var name := arn.value[i + |STREAM|..];
    if name == "" {
      return;
    }
    params.destinationName := Some(name);
    attrs.resourceId := arn;
  }

  /** An empty or missing stream name leaves the destination alone, and an ARN is built as soon as
      there is a region, an account and some destination. */
  method SetParamsFromStreamName(name: Option<string>, accountSetting: Option<string>, regionProperty: Option<string>,
                                 params: MessageParams?, attrs: CloudAttrs?)
    modifies params, attrs
    ensures params == null || attrs == null ==>
              && (params != null ==> params.destinationName == old(params.destinationName))
              && (attrs != null ==>
                    attrs.resourceId == old(attrs.resourceId) && attrs.accountId == old(attrs.accountId)
                    && attrs.region == old(attrs.region))
    ensures params != null && attrs != null ==>
              && params.destinationName == (if IsSet(name) then name else old(params.destinationName))
              && (if IsSet(accountSetting) && IsSet(regionProperty) && params.destinationName.Some? then
                    && attrs.resourceId == Some(BuildArn(regionProperty.value, accountSetting.value,
                                                         if name.Some? then name.value else "(null)"))
                    && attrs.accountId == old(attrs.accountId) && attrs.region == old(attrs.region)
                  else
                    && attrs.resourceId == None
                    && attrs.accountId == (if IsSet(accountSetting) then accountSetting else None)
                    && attrs.region == (if IsSet(regionProperty) then regionProperty else None))
  {
    if params == null || attrs == null {
      return;
    }
    var region, account, resourceId := None, None, None;
    if IsSet(name) {
      params.destinationName := name;
    }
    if IsSet(accountSetting) {
      account := accountSetting;
    }
    if IsSet(regionProperty) {
      region := regionProperty;
    }
    if region.Some? && account.Some? && params.destinationName.Some? {
      resourceId := Some(BuildArn(region.value, account.value, if name.Some? then name.value else "(null)"));
    }
    if resourceId == None {
      attrs.accountId := account;
      attrs.region := region;
    }
    attrs.resourceId := resourceId;
  }

  predicate Mentions(s: string, pattern: string) {
    IndexOf(s, pattern) >= 0
  }

  /** An occurrence of ":stream/" that starts before another one ends before it: only its first
      byte is a ':'. */
  lemma StreamsDoNotOverlap(s: string, i: int, j: int)
    requires OccursAt(s, STREAM, i) && OccursAt(s, STREAM, j) && i < j
    ensures i + |STREAM| <= j
  {
    OccursByte(s, STREAM, j, 0);
    if j - i < |STREAM| {
      OccursByte(s, STREAM, i, j - i);
    }
  }

  /** Nothing in front of the region reads ":stream/". */
  lemma NotInService(tail: string, i: int)
    requires OccursAt(SERVICE + tail, STREAM, i)
    ensures i >= |SERVICE|
  {
    OccursByte(SERVICE + tail, STREAM, i, 0);
    OccursByte(SERVICE + tail, STREAM, i, 1);
  }

  lemma OccursInPart(before: string, part: string, after: string, i: int)
    requires |before| <= i && i + |STREAM| <= |before| + |part|
    ensures OccursAt(before + part + after, STREAM, i) <==> OccursAt(part, STREAM, i - |before|)
  {
    var s := before + part + after;
    assert s[i..i + |STREAM|] == part[i - |before|..i - |before| + |STREAM|];
  }

  /** The first ":stream/" of a built ARN is the builder's own, unless region and account, in
      their places, spell one. */
  lemma FirstStreamOfBuilt(middle: string, name: string)
    ensures var i := IndexOf(SERVICE + middle + (STREAM + name), STREAM);
            0 <= i <= |SERVICE| + |middle| && (i == |SERVICE| + |middle| <==> !Mentions(middle, STREAM))
  {
    var arn := SERVICE + middle + (STREAM + name);
    var at := |SERVICE| + |middle|;
    assert arn[at..at + |STREAM|] == STREAM;
    assert OccursAt(arn, STREAM, at);
    var i := IndexOf(arn, STREAM);
    if i < at {
      StreamsDoNotOverlap(arn, i, at);
      assert arn == SERVICE + (middle + (STREAM + name));
      NotInService(middle + (STREAM + name), i);
      OccursInPart(SERVICE, middle, STREAM + name, i);
    }
    if Mentions(middle, STREAM) {
      var k := IndexOf(middle, STREAM);
      OccursInPart(SERVICE, middle, STREAM + name, |SERVICE| + k);
    }
  }

  /** A built ARN gives its stream name back exactly when the name is not empty and region and
      account, in their places, do not spell ":stream/" themselves. */
  lemma BuildThenParse(region: string, account: string, name: string)
    ensures StreamOf(BuildArn(region, account, name)) == Some(name)
            <==> name != "" && !Mentions(":" + region + ":" + account, STREAM)
  {
    var middle := ":" + region + ":" + account;
    var arn, at := BuildArn(region, account, name), |SERVICE| + |middle|;
    assert arn == SERVICE + middle + (STREAM + name);
    assert arn[at + |STREAM|..] == name;
    FirstStreamOfBuilt(middle, name);
  }

  /** Regions and accounts as they really are: without ':' or '/'. Then every name survives. */
  lemma PlainRegionAndAccount(region: string, account: string, name: string)
    requires name != "" && '/' !in region && '/' !in account
    ensures StreamOf(BuildArn(region, account, name)) == Some(name)
  {
    var middle := ":" + region + ":" + account;
    assert '/' !in middle;
    var i := IndexOf(middle, STREAM);
    if i >= 0 {
      OccursByte(middle, STREAM, i, 7);
    }
    BuildThenParse(region, account, name);
  }

  lemma FirstStreamIs(middle: string, behind: string)
    requires !Mentions(middle, STREAM) && behind != ""
    ensures StreamOf(SERVICE + middle + (STREAM + behind)) == Some(behind)
  {
    var arn, at := SERVICE + middle + (STREAM + behind), |SERVICE| + |middle|;
    FirstStreamOfBuilt(middle, behind);
    assert arn[at + |STREAM|..] == behind;
  }

  /** A region that spells ":stream/": what comes back begins in the region. */
  lemma RegionTaken(account: string, name: string)
    ensures StreamOf(BuildArn("a" + STREAM + "b", account, name)) == Some("b" + (":" + account + STREAM + name))
  {
    var behind := "b" + (":" + account + STREAM + name);
    assert BuildArn("a" + STREAM + "b", account, name) == SERVICE + ":a" + (STREAM + behind);
    FirstStreamIs(":a", behind);
  }

  /** The text of a built ARN. */
  lemma BuiltText(region: string, account: string, name: string)
    ensures BuildArn(region, account, name) == "arn:aws:kinesis:" + region + ":" + account + ":stream/" + name
  {
    assert "arn:aws:kinesis:" == SERVICE + ":";
    assert SERVICE + (":" + region) == SERVICE + ":" + region;
  }

  /** The stream's name is what follows the first ":stream/", if anything does. */
  lemma StreamExactly(arn: string, name: string)
    ensures StreamOf(arn) == Some(name) <==>
            name != "" && exists i :: && OccursAt(arn, ":stream/", i) && arn[i + 8..] == name
                                      && forall j :: OccursAt(arn, ":stream/", j) ==> i <= j
  {
  }
}
