/** The text tables `rootToString` and `settingName`. */
module Labels {
  /** The root degrees that have a button of their own. */
  predicate Supported(root: int) {
    root == 2 || root == 3 || root == 4 || root == 6
  }

  /**
   * The three text snippets for a root degree: how a guess raised to the degree is
   * described, how the true root is introduced, and how the challenge is named.
   * An unsupported degree gets three empty snippets.
   */
  function RootToString(root: int): (r: seq<string>)
    ensures |r| == 3
    ensures Supported(root) ==> forall k | 0 <= k < 3 :: r[k] != ""
    ensures !Supported(root) ==> r == ["", "", ""]
    ensures Supported(root) ==> "\n The actual " <= r[1] && " " <= r[2]
  {
    match root
    case 2 => [" squared is ", "\n The actual square root was ", " square root of "]
    case 3 => [" cubed is ", "\n The actual cubed root was ", " cubed root of "]
    case 4 => [" to the fourth power is ", "\n The actual fourth root was ", " fourth root of "]
    case 6 => [" to the sixth power is ", "\n The actual sixth root was ", " sixth root of "]
    case _ => ["", "", ""]
  }

  /** Two different supported degrees are never described by the same snippet. */
  lemma RootLabelsDistinct(a: int, b: int, k: nat)
    requires Supported(a) && Supported(b) && a != b && k < 3
    ensures RootToString(a)[k] != RootToString(b)[k]
  {
  }

  /** The name shown for the Decimal/Integer setting. */
  function SettingName(isDecimal: bool): (r: string)
    ensures r == "Decimal" <==> isDecimal
    ensures r == "Integer" <==> !isDecimal
  {
    if isDecimal then "Decimal" else "Integer"
  }
}
