/** Facts about finite sets shared by the rollups and the valuator. */
module Sets {
  /** One more name joins a batch: counting it unless it was seen stays exact as long as
      whatever was done before is seen. */
  lemma OneMoreName<T>(counted: set<T>, rest: set<T>, done: set<T>, a: T, prior: bool, counted': set<T>)
    requires counted <= rest - done
    requires a in done ==> prior
    requires counted' == counted + if a !in rest && !prior then {a} else {}
    ensures counted' <= (rest + {a}) - done
    ensures counted' == (rest + {a}) - done <==> counted == rest - done && !(a !in done + rest && prior)
  {
    if a !in rest {
      assert a !in counted;
      if a in done {
        assert (rest + {a}) - done == rest - done;
      } else {
        assert (rest + {a}) - done == (rest - done) + {a};
        assert rest - done == ((rest - done) + {a}) - {a};
      }
    } else {
      assert rest + {a} == rest;
    }
  }

  /** Adding the count of some new names is exact only when it counts all of them. */
  lemma UnionSize<T>(a: set<T>, b: set<T>, c: set<T>)
    requires c <= b - a
    ensures |a| + |c| <= |a + b|
    ensures |a| + |c| == |a + b| <==> c == b - a
  {
    assert a + b == a + (b - a);
    assert |a + b| == |a| + |b - a|;
    var rest := (b - a) - c;
    assert b - a == c + rest;
    assert |b - a| == |c| + |rest|;
  }

  /** One more key is handled: written, so that it is among the stored keys, or deleted. */
  lemma OneMoreKey<T>(done: set<T>, before: set<T>, after: set<T>, key: T, written: bool)
    requires key !in done && after == if written then before + {key} else before - {key}
    ensures |(done + {key}) * after| == |done * before| + if written then 1 else 0
  {
    if written {
      assert (done + {key}) * after == done * before + {key};
    } else {
      assert (done + {key}) * after == done * before;
    }
  }

  lemma HasMember(s: set<int>)
    ensures s == {} || exists x :: x in s
  {
    assert (forall x :: x !in s) ==> s == {};
  }
}
