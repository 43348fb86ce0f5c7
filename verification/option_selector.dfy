/** The option buttons of the customisation step and how a button decides it
    is chosen. */
module OptionSelector {

  /** `isSelected`: in multi-select mode an option is chosen when some chosen
      option has its value; in single-select mode only the first chosen
      option is compared. */
  predicate IsSelected<T, V(==)>(option: T, selected: seq<T>, multi: bool, value: T -> V)
  {
    if multi then exists i :: 0 <= i < |selected| && value(selected[i]) == value(option)
    else |selected| > 0 && value(selected[0]) == value(option)
  }

  /** With nothing chosen, no option is shown as chosen. */
  lemma NothingSelected<T, V>(option: T, multi: bool, value: T -> V)
    ensures !IsSelected(option, [], multi, value)
  {
  }

  /** A single-select button that shows as chosen would also show as chosen
      in multi-select mode; with at most one chosen option the two modes
      agree; and single-select mode is multi-select mode over the first
      chosen option alone, so the options after it are ignored. */
  lemma SingleWithinMulti<T, V>(option: T, selected: seq<T>, value: T -> V)
    ensures IsSelected(option, selected, false, value) ==> IsSelected(option, selected, true, value)
    ensures |selected| <= 1 ==> (IsSelected(option, selected, false, value) <==> IsSelected(option, selected, true, value))
    ensures |selected| > 0 ==> (IsSelected(option, selected, false, value) <==> IsSelected(option, selected[..1], true, value))
  {
    if IsSelected(option, selected, false, value) {
      assert value(selected[0]) == value(option);
    }
    if |selected| > 0 && IsSelected(option, selected[..1], true, value) {
      assert selected[..1][0] == selected[0];
    }
  }
}
