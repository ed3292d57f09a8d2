/**
 * The inventory record and the CSV column titles derived from its struct tags (lambda.go).
 */
module Lambda {

  /** One row of the inventory. The Go struct declares seven fields; `Region` is the
      field that the collection and export code use although the struct does not
      declare it, so the record carries it but no title tag exists for it. */
  datatype LambdaFunction = LambdaFunction(
    Name: string,
    Region: string,
    Arn: string,
    Description: string,
    LastModified: string,
    IamRole: string,
    Runtime: string,
    LastInvoked: string)

  /** A declared struct field together with its `title` tag. */
  datatype StructField = StructField(name: string, title: string)

  /** The fields the `lambdaFunction` struct declares, in declaration order, each with
      its tag: what reflection walks over for the struct as it is declared. */
  function DeclaredFields(): (fields: seq<StructField>)
    ensures |fields| == 7
  {
    [ StructField("Name", "Function Name"),
      StructField("Arn", "Function ARN"),
      StructField("Description", "Function Description"),
      StructField("LastModified", "Last Modified"),
      StructField("IamRole", "IAM Role"),
      StructField("Runtime", "Runtime"),
      StructField("LastInvoked", "Last Invoked") ]
  }

  /** The title tags of the declared fields, one per field, in declaration order. */
  function TitleFields(): (titles: seq<string>)
    ensures |titles| == |DeclaredFields()|
    ensures forall i :: 0 <= i < |titles| ==> titles[i] == DeclaredFields()[i].title
  {
    seq(|DeclaredFields()|, i requires 0 <= i < |DeclaredFields()| => DeclaredFields()[i].title)
  }

  /** getTitleFields: walks the struct's fields and appends each field's title tag.
      The receiver's field values play no part in the result. */
  method GetTitleFields(l: LambdaFunction) returns (titles: seq<string>)
    ensures |titles| == |DeclaredFields()|
    ensures forall i :: 0 <= i < |titles| ==> titles[i] == DeclaredFields()[i].title
  {
    var fields := DeclaredFields();
    titles := [];
    var i := 0;
    while i < |fields|
      invariant 0 <= i <= |fields|
      invariant |titles| == i
      invariant forall k :: 0 <= k < i ==> titles[k] == fields[k].title
    {
      var title := fields[i].title;
      titles := titles + [title];
      i := i + 1;
    }
  }

  /** The title list is exactly the seven declared tags. */
  lemma TitleFieldsAreTheSevenTags()
    ensures TitleFields() == ["Function Name", "Function ARN", "Function Description",
                              "Last Modified", "IAM Role", "Runtime", "Last Invoked"]
  {
  }

  /** No declared field is `Region` and no column is titled for it. */
  lemma NoRegionTitle()
    ensures forall i :: 0 <= i < |DeclaredFields()| ==> DeclaredFields()[i].name != "Region"
    ensures forall t :: t in TitleFields() ==> t != "Region"
  {
  }
}
