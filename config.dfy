/**
 * The deployment constants of config.py that the modelled operations use:
 * button positions on the screen, macro keybinds, process names and the
 * launcher path. A deployment edits these values; the model uses them as given.
 */
module Config {
  import opened Screen

  const BackToServerListButton := Point(963, 575)
  const DisconnectButton := Point(960, 505)
  const HypixelButton := Point(935, 130)
  const JoinServerButton := Point(750, 950)
  const PlayButton := Point(1050, 1000)
  const MultiplayerButton := Point(950, 440)
  const SmallChestTopLeftSlot := Point(815, 415)

  const RefreshKeybind := 'r'
  const ConfigKeybind := 'c'
  const ResetStatsKeybind := 'p'

  const LauncherProcessName := "MinecraftLauncher.exe"
  const MinecraftProcessName := "javaw.exe"
  const MinecraftExe := "C:\\Program Files (x86)\\Minecraft\\MinecraftLauncher.exe"
}
