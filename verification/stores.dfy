/**
 The three external stores the handlers use, as values: the credentials
 table, the `Employee` record table keyed by `EmployeeID`, and the
 `employeephoto` object bucket. One storage session serves all three, so
 one `Access` flag says whether its credentials could be found.
 */
module Stores {
  import Decimal
  import opened Schema

  newtype byte = b: int | 0 <= b < 256

  const BucketName := "employeephoto"

  /** Everything of a photo URL before the object key: the same for every employee. */
  const PhotoUrlPrefix := "https://" + BucketName + ".s3.amazonaws.com/"

  /** Whether the storage session has credentials; `Denied` carries the error text. */
  datatype Access = Granted | Denied(reason: string)

  /** The credentials table: the tokens it holds, or a table the scan cannot reach. */
  datatype Credentials = Reachable(tokens: set<string>) | Unreachable

  datatype State = State(
    access: Access,
    credentials: Credentials,
    records: map<nat, Item>,
    objects: map<string, seq<byte>>)

  /** The object key of an employee's photo, `f'{employee_id}.jpg'`. */
  function PhotoKey(id: nat): (k: string)
    ensures |k| > 4 && k[|k| - 4..] == ".jpg"
    ensures k[..|k| - 4] == Decimal.Show(id)
  {
    Decimal.Show(id) + ".jpg"
  }

  /** The public URL recorded for an employee's photo. */
  function PhotoUrl(id: nat): (u: string)
    ensures |u| == |PhotoUrlPrefix| + |PhotoKey(id)|
    ensures u[..|PhotoUrlPrefix|] == PhotoUrlPrefix
    ensures u[|PhotoUrlPrefix|..] == PhotoKey(id)
  {
    PhotoUrlPrefix + PhotoKey(id)
  }

  /** Distinct employees never share a photo key. */
  lemma PhotoKeyInjective(m: nat, n: nat)
    ensures PhotoKey(m) == PhotoKey(n) <==> m == n
  {
    if PhotoKey(m) == PhotoKey(n) {
      Decimal.ShowInjective(m, n);
    }
  }

  /** Distinct employees never share a photo URL. */
  lemma PhotoUrlInjective(m: nat, n: nat)
    ensures PhotoUrl(m) == PhotoUrl(n) <==> m == n
  {
    if PhotoUrl(m) == PhotoUrl(n) {
      PhotoKeyInjective(m, n);
    }
  }

  lemma PhotoKeyExample()
    ensures PhotoKey(42) == "42.jpg"
  {
    assert 42 / 10 == 4 && 42 % 10 == 2;
    assert Decimal.Show(4) == "4";
    assert Decimal.Show(42) == "42";
  }

  lemma PhotoUrlExample()
    ensures PhotoUrl(42) == "https://employeephoto.s3.amazonaws.com/42.jpg"
  {
    PhotoKeyExample();
    assert PhotoUrlPrefix == "https://employeephoto.s3.amazonaws.com/";
    assert PhotoUrl(42) == PhotoUrlPrefix + "42.jpg";
  }

  /**
   `update_item(Key={'EmployeeID': id}, UpdateExpression='SET PhotoURL = :val1')`:
   sets the one attribute, creating the item from its key when it is absent.
   */
  function SetPhotoUrl(records: map<nat, Item>, id: nat, url: string): (r: map<nat, Item>)
    ensures r.Keys == records.Keys + {id}
    ensures PhotoUrlField in r[id] && r[id][PhotoUrlField] == Str(url)
    ensures id in records ==> r[id].Keys == records[id].Keys + {PhotoUrlField}
    ensures id in records ==> forall k :: k in records[id] && k != PhotoUrlField ==> r[id][k] == records[id][k]
    ensures id !in records ==> r[id] == map[EmployeeIdField := Int(id), PhotoUrlField := Str(url)]
    ensures forall other :: other in records && other != id ==> r[other] == records[other]
  {
    var item := if id in records then records[id] else map[EmployeeIdField := Int(id)];
    records[id := item[PhotoUrlField := Str(url)]]
  }

}
