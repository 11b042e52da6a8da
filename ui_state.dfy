/** ui/common/UiState.kt: the state of one section of a screen. */
module UiStates {
  import opened StringResources

  datatype UiState<+T> = Loading | Success(data: T) | Error(message: UserMessage)
}
