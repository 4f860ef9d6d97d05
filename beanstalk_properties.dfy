/**
 * What the detector promises about its result, proved of `ResourceFor` and of
 * the builder contents `Collected`; `BuildResource` is proved to return
 * `ResourceFor`.
 */
module BeanstalkProperties {
  import opened Wrappers
  import opened Semconv
  import opened Resources
  import opened BeanstalkResource

  /** Field `i` is the last one in `fields` whose key maps to attribute `a`. */
  predicate LastFor(fields: seq<Field>, i: int, a: string) {
    && 0 <= i < |fields|
    && AttributeFor(fields[i].name) == Some(a)
    && forall j :: i < j < |fields| ==> AttributeFor(fields[j].name) != Some(a)
  }

  /** Distinct fields have distinct names, as in a JSON object without repeated keys. */
  predicate DistinctNames(fields: seq<Field>) {
    forall i, j :: 0 <= i < j < |fields| ==> fields[i].name != fields[j].name
  }

  /** Only one key maps to each attribute. */
  lemma AttributeForInjective(x: string, y: string)
    requires AttributeFor(x).Some? && AttributeFor(x) == AttributeFor(y)
    ensures x == y
  {
  }

  /** Collecting one more field is one more step of the loop. */
  lemma CollectedPush(prefix: seq<Field>, field: Field)
    requires RecognisedScalars(prefix + [field])
    ensures RecognisedScalars(prefix)
    ensures field.name in RecognisedKeys ==> field.value.Str?
    ensures Collected(prefix + [field]) == Apply(Collected(prefix), field)
  {
    var fields := prefix + [field];
    assert forall i :: 0 <= i < |prefix| ==> fields[i] == prefix[i];
    assert fields[|prefix|] == field;
    assert fields[..|fields| - 1] == prefix;
  }

  /** The builder holds attribute `a` exactly when some field's key maps to it. */
  lemma {:induction false} CollectedHas(fields: seq<Field>, a: string)
    requires RecognisedScalars(fields)
    ensures a in Collected(fields) <==>
      exists i :: 0 <= i < |fields| && AttributeFor(fields[i].name) == Some(a)
  {
    if fields != [] {
      var last := |fields| - 1;
      var init := fields[..last];
      assert fields == init + [fields[last]];
      CollectedPush(init, fields[last]);
      CollectedHas(init, a);
      if AttributeFor(fields[last].name) != Some(a) {
        if exists i :: 0 <= i < |fields| && AttributeFor(fields[i].name) == Some(a) {
          var i :| 0 <= i < |fields| && AttributeFor(fields[i].name) == Some(a);
          assert init[i] == fields[i];
        }
        if exists i :: 0 <= i < |init| && AttributeFor(init[i].name) == Some(a) {
          var i :| 0 <= i < |init| && AttributeFor(init[i].name) == Some(a);
          assert init[i] == fields[i];
        }
      }
    }
  }

  /** When field `i` is the last whose key maps to `a`, the builder holds its text: later puts win. */
  lemma {:induction false} CollectedLastWins(fields: seq<Field>, i: int, a: string)
    requires RecognisedScalars(fields)
    requires LastFor(fields, i, a)
    ensures a in Collected(fields) && Collected(fields)[a] == fields[i].value.text
  {
    var last := |fields| - 1;
    var init := fields[..last];
    assert fields == init + [fields[last]];
    CollectedPush(init, fields[last]);
    if i < last {
      assert AttributeFor(fields[last].name) != Some(a);
      assert init[i] == fields[i];
      assert LastFor(init, i, a) by {
        forall j | i < j < |init| ensures AttributeFor(init[j].name) != Some(a) {
          assert init[j] == fields[j];
        }
      }
      CollectedLastWins(init, i, a);
    }
  }

  /** With distinct names, the one field whose key maps to `a` is the last one. */
  lemma OnlyFieldIsLast(fields: seq<Field>, i: int, a: string)
    requires DistinctNames(fields)
    requires 0 <= i < |fields| && AttributeFor(fields[i].name) == Some(a)
    ensures LastFor(fields, i, a)
  {
    forall j | i < j < |fields| ensures AttributeFor(fields[j].name) != Some(a) {
      if AttributeFor(fields[j].name) == Some(a) {
        AttributeForInjective(fields[i].name, fields[j].name);
      }
    }
  }

  /** Attribute `a` is collected from `ys` with the value it has in `xs`, when `xs`'s fields are among `ys`'s. */
  lemma {:induction false} CollectedFromSameFields(xs: seq<Field>, ys: seq<Field>, a: string)
    requires RecognisedScalars(xs) && RecognisedScalars(ys)
    requires DistinctNames(xs) && DistinctNames(ys)
    requires multiset(xs) <= multiset(ys)
    requires a in Collected(xs)
    ensures a in Collected(ys) && Collected(ys)[a] == Collected(xs)[a]
  {
    CollectedHas(xs, a);
    var i :| 0 <= i < |xs| && AttributeFor(xs[i].name) == Some(a);
    var f := xs[i];
    assert f in multiset(xs);
    assert f in multiset(ys);
    var k :| 0 <= k < |ys| && ys[k] == f;
    OnlyFieldIsLast(xs, i, a);
    OnlyFieldIsLast(ys, k, a);
    CollectedLastWins(xs, i, a);
    CollectedLastWins(ys, k, a);
  }

  /** Without repeated names no field occurs twice. */
  lemma {:induction false} DistinctNamesOccurOnce(fields: seq<Field>, f: Field)
    requires DistinctNames(fields)
    ensures multiset(fields)[f] <= 1
  {
    if fields != [] {
      var last := |fields| - 1;
      var init := fields[..last];
      assert fields == init + [fields[last]];
      assert forall k :: 0 <= k < |init| ==> init[k] == fields[k];
      DistinctNamesOccurOnce(init, f);
      if f == fields[last] {
        assert f !in init by {
          forall k | 0 <= k < |init| ensures init[k] != f {
            assert fields[k].name != fields[last].name;
          }
        }
      }
    }
  }

  /** A field at two positions occurs at least twice. */
  lemma OccursTwice(fields: seq<Field>, i: int, j: int)
    requires 0 <= i < j < |fields| && fields[i] == fields[j]
    ensures multiset(fields)[fields[i]] >= 2
  {
    assert fields == fields[..j] + fields[j..];
    assert fields[i] == fields[..j][i];
    assert fields[i] == fields[j..][0];
  }

  /** A reordering of an object with distinct keys still has distinct keys and scalar recognised values. */
  lemma ReorderingKeepsShape(fields: seq<Field>, reordered: seq<Field>)
    requires RecognisedScalars(fields) && DistinctNames(fields)
    requires multiset(fields) == multiset(reordered)
    ensures RecognisedScalars(reordered) && DistinctNames(reordered)
  {
    forall k | 0 <= k < |reordered| ensures reordered[k] in fields {
      assert reordered[k] in multiset(reordered);
    }
    forall i, j | 0 <= i < j < |reordered| ensures reordered[i].name != reordered[j].name {
      if reordered[i] == reordered[j] {
        OccursTwice(reordered, i, j);
        DistinctNamesOccurOnce(fields, reordered[i]);
      } else {
        var p :| 0 <= p < |fields| && fields[p] == reordered[i];
        var q :| 0 <= q < |fields| && fields[q] == reordered[j];
        if p < q {
          assert fields[p].name != fields[q].name;
        } else {
          assert fields[q].name != fields[p].name;
        }
      }
    }
  }

  /** Reordering the fields of an object with distinct keys does not change what is collected. */
  lemma ReorderedFieldsCollectSame(fields: seq<Field>, reordered: seq<Field>)
    requires RecognisedScalars(fields) && DistinctNames(fields)
    requires multiset(fields) == multiset(reordered)
    ensures RecognisedScalars(reordered)
    ensures Collected(fields) == Collected(reordered)
  {
    ReorderingKeepsShape(fields, reordered);
    forall a | a in Collected(fields) ensures a in Collected(reordered) && Collected(reordered)[a] == Collected(fields)[a] {
      CollectedFromSameFields(fields, reordered, a);
    }
    forall a | a in Collected(reordered) ensures a in Collected(fields) {
      CollectedFromSameFields(reordered, fields, a);
    }
  }

  /** Reordering the fields of an object with distinct keys does not change the resource. */
  lemma ReorderedObjectSameResource(fields: seq<Field>, reordered: seq<Field>)
    requires RecognisedScalars(fields) && DistinctNames(fields)
    requires multiset(fields) == multiset(reordered)
    ensures RecognisedScalars(reordered)
    ensures ResourceFor(Object(fields)) == ResourceFor(Object(reordered))
  {
    ReorderedFieldsCollectSame(fields, reordered);
  }

  /** A missing file gives the empty resource: no attributes, no schema URL. */
  lemma MissingFileIsEmpty()
    ensures ResourceFor(Missing).attributes == map[]
    ensures ResourceFor(Missing).schemaUrl == None
  {
  }

  /**
   * A failure discards whatever the builder already held: the result is the
   * empty resource, whatever fields were consumed before it.
   */
  lemma FailureRollsBack(consumed: seq<Field>)
    requires RecognisedScalars(consumed)
    ensures ResourceFor(Failed(consumed)) == Empty
    ensures ResourceFor(Failed(consumed)) == ResourceFor(Missing)
  {
  }

  /** A document that is not an object gives no attributes, but unlike the other failures keeps the schema URL. */
  lemma NotObjectKeepsSchema()
    ensures ResourceFor(NotObject).attributes == map[]
    ensures ResourceFor(NotObject).schemaUrl == Some(SchemaUrlV1_25_0)
    ensures ResourceFor(NotObject) != Empty
  {
  }

  /** The result has attributes exactly when the whole object was read. */
  lemma AttributesOnlyForObject(config: ConfigFile)
    requires WellFormed(config)
    ensures ResourceFor(config).attributes != map[] <==> config.Object?
    ensures ResourceFor(config).schemaUrl.Some? <==> config.Object? || config.NotObject?
  {
    if config.Object? {
      assert CloudProvider in ResourceFor(config).attributes;
    }
  }

  /** A fully read object always carries the two cloud attributes and the schema URL. */
  lemma ObjectHasCloudAttributes(fields: seq<Field>)
    requires RecognisedScalars(fields)
    ensures ResourceFor(Object(fields)).attributes[CloudProvider] == Aws
    ensures ResourceFor(Object(fields)).attributes[CloudPlatform] == AwsElasticBeanstalk
    ensures ResourceFor(Object(fields)).schemaUrl == Some(SchemaUrlV1_25_0)
  {
  }

  /**
   * A service attribute is in the result exactly when some field's key maps to
   * it, with the text of the last such field.
   */
  lemma {:induction false} ObjectServiceAttribute(fields: seq<Field>, a: string)
    requires RecognisedScalars(fields)
    requires a in ServiceAttributeNames
    ensures a in ResourceFor(Object(fields)).attributes <==>
      exists i :: 0 <= i < |fields| && AttributeFor(fields[i].name) == Some(a)
    ensures forall i :: LastFor(fields, i, a) ==> ResourceFor(Object(fields)).attributes[a] == fields[i].value.text
  {
    CollectedHas(fields, a);
    forall i | LastFor(fields, i, a) ensures ResourceFor(Object(fields)).attributes[a] == fields[i].value.text {
      CollectedLastWins(fields, i, a);
    }
  }

  /** An object with no recognised key gives exactly the two cloud attributes. */
  lemma {:induction false} NoRecognisedKeyOnlyCloud(fields: seq<Field>)
    requires forall i :: 0 <= i < |fields| ==> fields[i].name !in RecognisedKeys
    ensures RecognisedScalars(fields)
    ensures ResourceFor(Object(fields)).attributes == map[CloudProvider := Aws, CloudPlatform := AwsElasticBeanstalk]
  {
    forall a ensures a !in Collected(fields) {
      CollectedHas(fields, a);
    }
    assert Collected(fields) == map[];
  }

  /** The three recognised keys together give exactly five attributes. */
  lemma AllRecognisedKeys(id: string, version: string, namespace: string)
    ensures ResourceFor(Object([Field(DeploymentId, Str(id)), Field(VersionLabel, Str(version)),
                                Field(EnvironmentName, Str(namespace))])).attributes ==
      map[ServiceInstanceId := id, ServiceVersion := version, ServiceNamespace := namespace,
          CloudProvider := Aws, CloudPlatform := AwsElasticBeanstalk]
  {
    var fields := [Field(DeploymentId, Str(id)), Field(VersionLabel, Str(version)),
                   Field(EnvironmentName, Str(namespace))];
    CollectedPush([], fields[0]);
    CollectedPush([fields[0]], fields[1]);
    CollectedPush([fields[0], fields[1]], fields[2]);
    assert [fields[0], fields[1]] + [fields[2]] == fields;
  }

  /** A recognised key given twice keeps the later value. */
  lemma DuplicateKeyLaterWins(earlier: string, later: string)
    ensures ResourceFor(Object([Field(DeploymentId, Str(earlier)), Field(DeploymentId, Str(later))]))
              .attributes[ServiceInstanceId] == later
  {
    var fields := [Field(DeploymentId, Str(earlier)), Field(DeploymentId, Str(later))];
    ObjectServiceAttribute(fields, ServiceInstanceId);
    assert LastFor(fields, 1, ServiceInstanceId);
  }

  /** The three recognised keys and the attributes they are stored under. */
  lemma KeyMapping()
    ensures AttributeFor(DeploymentId) == Some(ServiceInstanceId)
    ensures AttributeFor(VersionLabel) == Some(ServiceVersion)
    ensures AttributeFor(EnvironmentName) == Some(ServiceNamespace)
  {
  }
}
