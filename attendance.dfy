/**
 * Attendance marking from the classroom names of one tick (the
 * current_recognized_faces loop of VideoCamera.get_frame in core/camera.py).
 *
 * The database write is external: `fails` is the set of person ids whose
 * Attendance create raises this tick; the set fixes the outcome for the
 * whole tick, so a second create for the same id in one tick fails again.
 * The id enters attendance_marked only after its create succeeded, so a
 * failed write is attempted again on a later tick.
 */
module Attendance {
  import opened Optional
  import Recognition

  /** An entry of known_face_details (the load-time clock string is not modelled). */
  datatype Details = Details(name: string, id: int, className: string, age: Option<int>, department: string)

  /** New attendance_marked, new current_recognized_faces, the creates attempted in order. */
  datatype Scan = Scan(marked: set<int>, recognized: seq<Details>, writes: seq<int>)

  /** A classroom name that is listed and resolved to somebody. */
  predicate Counts(n: string, details: map<string, Details>) {
    n != Recognition.UNKNOWN && n in details
  }

  /** The counted names, in order and with repeats. */
  function Counted(names: seq<string>, details: map<string, Details>): (c: seq<string>)
    ensures |c| <= |names|
    ensures forall n :: n in c <==> n in names && Counts(n, details)
    ensures forall k :: 0 <= k < |c| ==> Counts(c[k], details)
  {
    if names == [] then []
    else if Counts(names[0], details) then [names[0]] + Counted(names[1..], details)
    else Counted(names[1..], details)
  }

  /**
   * current_recognized_faces: one entry per counted name, in order and with
   * repeats, each the details of that name; so every counted name is listed.
   */
  function Recognized(names: seq<string>, details: map<string, Details>): (r: seq<Details>)
    ensures var c := Counted(names, details);
            |r| == |c| && forall k :: 0 <= k < |r| ==> c[k] in details && r[k] == details[c[k]]
    ensures forall i :: 0 <= i < |names| && Counts(names[i], details) ==> details[names[i]] in r
    ensures forall d :: d in r ==> exists i :: 0 <= i < |names| && Counts(names[i], details) && d == details[names[i]]
  {
    var c := Counted(names, details);
    var r := seq(|c|, k requires 0 <= k < |c| => details[c[k]]);
    assert forall i :: 0 <= i < |names| && Counts(names[i], details) ==> details[names[i]] in r by {
      forall i | 0 <= i < |names| && Counts(names[i], details) ensures details[names[i]] in r {
        assert names[i] in c;
        var k :| 0 <= k < |c| && c[k] == names[i];
        assert r[k] == details[names[i]];
      }
    }
    assert forall d :: d in r ==> exists i :: 0 <= i < |names| && Counts(names[i], details) && d == details[names[i]] by {
      forall d | d in r ensures exists i :: 0 <= i < |names| && Counts(names[i], details) && d == details[names[i]] {
        var k :| 0 <= k < |r| && r[k] == d;
        assert c[k] in c;
        var i :| 0 <= i < |names| && names[i] == c[k];
      }
    }
    r
  }

  /** The list is built name by name: a counted first name contributes its details in front. */
  lemma RecognizedCons(names: seq<string>, details: map<string, Details>)
    requires names != []
    ensures Recognized(names, details)
            == (if Counts(names[0], details) then [details[names[0]]] else []) + Recognized(names[1..], details)
  {
    var c := Counted(names, details);
    var cr := Counted(names[1..], details);
    assert c == if Counts(names[0], details) then [names[0]] + cr else cr;
  }

  /** Some counted name of `names` belongs to person `id`. */
  ghost predicate SightedId(names: seq<string>, details: map<string, Details>, id: int) {
    exists j :: 0 <= j < |names| && Counts(names[j], details) && details[names[j]].id == id
  }

  /**
   * The loop over the classroom names: a create is attempted for a counted
   * name whose person id is truthy and not yet marked; a create that does
   * not fail marks the id (ScanNamesSound states what it guarantees).
   */
  function ScanNames(names: seq<string>, details: map<string, Details>, marked: set<int>, fails: set<int>): (r: Scan)
    ensures marked <= r.marked
    decreases |names|
  {
    if names == [] then Scan(marked, [], [])
    else
      var n := names[0];
      var tail := names[1..];
      if Counts(n, details) then
        var id := details[n].id;
        var attempt := id != 0 && id !in marked;
        var marked1 := if attempt && id !in fails then marked + {id} else marked;
        var rest := ScanNames(tail, details, marked1, fails);
        Scan(rest.marked, [details[n]] + rest.recognized, (if attempt then [id] else []) + rest.writes)
      else
        ScanNames(tail, details, marked, fails)
  }

  /** A counted name whose person has a truthy id that is not marked yet: a create is due. */
  predicate Owed(n: string, details: map<string, Details>, marked: set<int>) {
    Counts(n, details) && details[n].id != 0 && details[n].id !in marked
  }

  /**
   * Marks are only added; every create is for a truthy id that was not
   * marked before the scan, and every such id of a counted name gets one;
   * an id is newly marked only after a create for it that did not fail,
   * and every create that did not fail marks its id.
   */
  lemma {:induction false} ScanNamesSound(names: seq<string>, details: map<string, Details>,
                                          marked: set<int>, fails: set<int>)
    ensures var r := ScanNames(names, details, marked, fails);
            && marked <= r.marked
            && (forall i :: 0 <= i < |r.writes| ==> r.writes[i] != 0 && r.writes[i] !in marked)
            && (forall id :: id in r.marked && id !in marked ==> id in r.writes && id !in fails)
            && (forall i :: 0 <= i < |r.writes| && r.writes[i] !in fails ==> r.writes[i] in r.marked)
            && (forall i :: 0 <= i < |names| && Owed(names[i], details, marked) ==> details[names[i]].id in r.writes)
    decreases |names|
  {
    ScanWritesFresh(names, details, marked, fails);
    ScanMarksByWrites(names, details, marked, fails);
    ScanOwedWritten(names, details, marked, fails);
  }

  /** Every create of the scan is for a truthy id that was not marked before it. */
  lemma {:induction false} ScanWritesFresh(names: seq<string>, details: map<string, Details>,
                                           marked: set<int>, fails: set<int>)
    ensures forall i :: 0 <= i < |ScanNames(names, details, marked, fails).writes| ==>
              ScanNames(names, details, marked, fails).writes[i] != 0 && ScanNames(names, details, marked, fails).writes[i] !in marked
    decreases |names|
  {
    if names != [] {
      var n := names[0];
      var tail := names[1..];
      var r := ScanNames(names, details, marked, fails);
      if Counts(n, details) {
        var id := details[n].id;
        var attempt := id != 0 && id !in marked;
        var marked1 := if attempt && id !in fails then marked + {id} else marked;
        ScanWritesFresh(tail, details, marked1, fails);
        var rest := ScanNames(tail, details, marked1, fails);
        assert r.writes == (if attempt then [id] else []) + rest.writes;
        forall i | 0 <= i < |r.writes| ensures r.writes[i] != 0 && r.writes[i] !in marked {
          if !attempt {
            assert r.writes[i] == rest.writes[i];
          } else if i > 0 {
            assert r.writes[i] == rest.writes[i - 1];
          }
        }
      } else {
        ScanWritesFresh(tail, details, marked, fails);
      }
    }
  }

  /** New marks come only from creates that did not fail, and each such create marks its id. */
  lemma {:induction false} ScanMarksByWrites(names: seq<string>, details: map<string, Details>,
                                             marked: set<int>, fails: set<int>)
    ensures forall id :: id in ScanNames(names, details, marked, fails).marked && id !in marked ==>
              id in ScanNames(names, details, marked, fails).writes && id !in fails
    ensures forall i :: 0 <= i < |ScanNames(names, details, marked, fails).writes|
                        && ScanNames(names, details, marked, fails).writes[i] !in fails ==>
              ScanNames(names, details, marked, fails).writes[i] in ScanNames(names, details, marked, fails).marked
    decreases |names|
  {
    if names != [] {
      var n := names[0];
      var tail := names[1..];
      var r := ScanNames(names, details, marked, fails);
      if Counts(n, details) {
        var id := details[n].id;
        var attempt := id != 0 && id !in marked;
        var marked1 := if attempt && id !in fails then marked + {id} else marked;
        ScanMarksByWrites(tail, details, marked1, fails);
        var rest := ScanNames(tail, details, marked1, fails);
        assert r.writes == (if attempt then [id] else []) + rest.writes;
        forall i | 0 <= i < |r.writes| && r.writes[i] !in fails ensures r.writes[i] in r.marked {
          if !attempt {
            assert r.writes[i] == rest.writes[i];
          } else if i > 0 {
            assert r.writes[i] == rest.writes[i - 1];
          }
        }
        forall x | x in r.marked && x !in marked ensures x in r.writes && x !in fails {
          if x !in marked1 {
            assert x in rest.writes;
          } else {
            assert r.writes[0] == x;
          }
        }
      } else {
        ScanMarksByWrites(tail, details, marked, fails);
      }
    }
  }

  /** Every counted name whose truthy id is not marked gets a create. */
  lemma {:induction false} ScanOwedWritten(names: seq<string>, details: map<string, Details>,
                                           marked: set<int>, fails: set<int>)
    ensures forall i :: 0 <= i < |names| && Owed(names[i], details, marked) ==>
              details[names[i]].id in ScanNames(names, details, marked, fails).writes
    decreases |names|
  {
    if names != [] {
      var n := names[0];
      var tail := names[1..];
      var r := ScanNames(names, details, marked, fails);
      if Counts(n, details) {
        var id := details[n].id;
        var attempt := id != 0 && id !in marked;
        var marked1 := if attempt && id !in fails then marked + {id} else marked;
        ScanOwedWritten(tail, details, marked1, fails);
        var rest := ScanNames(tail, details, marked1, fails);
        assert r.writes == (if attempt then [id] else []) + rest.writes;
        forall i | 0 <= i < |names| && Owed(names[i], details, marked) ensures details[names[i]].id in r.writes {
          var x := details[names[i]].id;
          if i == 0 {
            assert r.writes[0] == x;
          } else {
            assert names[i] == tail[i - 1];
            if x !in marked1 {
              assert Owed(tail[i - 1], details, marked1);
              assert x in rest.writes;
            } else {
              assert r.writes[0] == x;
            }
          }
        }
      } else {
        ScanOwedWritten(tail, details, marked, fails);
        var rest := ScanNames(tail, details, marked, fails);
        forall i | 0 <= i < |names| && Owed(names[i], details, marked) ensures details[names[i]].id in r.writes {
          assert i > 0 && names[i] == tail[i - 1];
          assert Owed(tail[i - 1], details, marked);
        }
      }
    }
  }

  /**
   * After the scan, every person seen in class with a truthy id is marked,
   * unless the create for them failed.
   */
  lemma SightedIdMarked(names: seq<string>, details: map<string, Details>, marked: set<int>, fails: set<int>, i: int)
    requires 0 <= i < |names| && Counts(names[i], details) && details[names[i]].id != 0
    requires details[names[i]].id !in fails
    ensures details[names[i]].id in ScanNames(names, details, marked, fails).marked
  {
    ScanNamesSound(names, details, marked, fails);
    var r := ScanNames(names, details, marked, fails);
    var x := details[names[i]].id;
    if x !in marked {
      assert Owed(names[i], details, marked);
      var k :| 0 <= k < |r.writes| && r.writes[k] == x;
    }
  }

  /** The recognised list does not depend on which ids were already marked or which writes fail. */
  lemma {:induction false} ScanListsRecognized(names: seq<string>, details: map<string, Details>,
                                               marked: set<int>, fails: set<int>)
    ensures ScanNames(names, details, marked, fails).recognized == Recognized(names, details)
    decreases |names|
  {
    if names != [] {
      var n := names[0];
      var tail := names[1..];
      if Counts(n, details) {
        var id := details[n].id;
        var attempt := id != 0 && id !in marked;
        var marked1 := if attempt && id !in fails then marked + {id} else marked;
        ScanListsRecognized(tail, details, marked1, fails);
      } else {
        ScanListsRecognized(tail, details, marked, fails);
      }
      RecognizedCons(names, details);
    }
  }

  /** Every create attempted belongs to a person whose name was seen in class. */
  lemma {:induction false} WritesAreSighted(names: seq<string>, details: map<string, Details>,
                                            marked: set<int>, fails: set<int>, i: int)
    requires 0 <= i < |ScanNames(names, details, marked, fails).writes|
    ensures SightedId(names, details, ScanNames(names, details, marked, fails).writes[i])
    decreases |names|
  {
    var n := names[0];
    var tail := names[1..];
    var w := ScanNames(names, details, marked, fails).writes;
    if Counts(n, details) {
      var id := details[n].id;
      var attempt := id != 0 && id !in marked;
      var marked1 := if attempt && id !in fails then marked + {id} else marked;
      var rest := ScanNames(tail, details, marked1, fails);
      if attempt && i == 0 {
        assert w[0] == details[names[0]].id;
      } else {
        var k := if attempt then i - 1 else i;
        assert w[i] == rest.writes[k];
        WritesAreSighted(tail, details, marked1, fails, k);
        var j :| 0 <= j < |tail| && Counts(tail[j], details) && details[tail[j]].id == w[i];
        assert names[j + 1] == tail[j];
      }
    } else {
      var rest := ScanNames(tail, details, marked, fails);
      assert w == rest.writes;
      WritesAreSighted(tail, details, marked, fails, i);
      var j :| 0 <= j < |tail| && Counts(tail[j], details) && details[tail[j]].id == w[i];
      assert names[j + 1] == tail[j];
    }
  }

  /** Within one tick, a create that succeeded is never attempted again. */
  lemma {:induction false} SucceededWriteNotRepeated(names: seq<string>, details: map<string, Details>,
                                                     marked: set<int>, fails: set<int>, i: int, j: int)
    requires var w := ScanNames(names, details, marked, fails).writes; 0 <= i < j < |w| && w[i] == w[j]
    ensures ScanNames(names, details, marked, fails).writes[i] in fails
    decreases |names|
  {
    var n := names[0];
    var tail := names[1..];
    if Counts(n, details) {
      var id := details[n].id;
      var attempt := id != 0 && id !in marked;
      var marked1 := if attempt && id !in fails then marked + {id} else marked;
      var rest := ScanNames(tail, details, marked1, fails);
      var w := ScanNames(names, details, marked, fails).writes;
      if attempt {
        assert w == [id] + rest.writes;
        if i == 0 {
          ScanNamesSound(tail, details, marked1, fails);
          assert rest.writes[j - 1] == id;
          assert id !in marked1;
        } else {
          SucceededWriteNotRepeated(tail, details, marked1, fails, i - 1, j - 1);
        }
      } else {
        assert w == rest.writes;
        SucceededWriteNotRepeated(tail, details, marked1, fails, i, j);
      }
    } else {
      SucceededWriteNotRepeated(tail, details, marked, fails, i, j);
    }
  }

  /** The recognised list is not deduplicated: a student seen twice is listed twice. */
  lemma RecognizedKeepsRepeats(d: Details)
    requires d.name != Recognition.UNKNOWN
    ensures Recognized([d.name, d.name], map[d.name := d]) == [d, d]
  {
  }
}
